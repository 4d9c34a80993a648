/** The tree that the used slots of the double array spell out. */
module Layouts {
  import opened Slots
  import opened Cells
  import opened Rings

  /** A place in the tree, named by the labels that lead to it. */
  datatype Path = Root | Edge(up: Path, via: byte)

  /** Only the edge with label 0 leads to a terminal, which holds a value. */
  predicate Inner(p: Path) {
    p.Root? || p.via != 0
  }

  /** Which slot each place of the tree occupies, which place each used slot holds,
      and the labels below each inner place in the order of the child chain. */
  datatype Layout = Layout(at: map<Path, int>, owner: map<int, Path>, kids: map<Path, seq<byte>>)

  /** Places and used slots correspond one to one. */
  ghost predicate Mirrored(g: Layout) {
    && (forall p :: p in g.at ==> g.at[p] in g.owner && g.owner[g.at[p]] == p)
    && (forall s :: s in g.owner ==> g.owner[s] in g.at && g.at[g.owner[s]] == s)
  }

  /** No label twice; the terminal comes first. */
  ghost predicate GoodKids(ks: seq<byte>) {
    Distinct(ks) && forall i :: 0 < i < |ks| ==> ks[i] != 0
  }

  /** The places form a tree whose edges are the labels in `kids`.  The chain of the root
      starts with label 0, which stands for the root's own slot. */
  ghost predicate TreeShaped(places: set<Path>, kids: map<Path, seq<byte>>) {
    && Root in places
    && Edge(Root, 0) !in places
    && (forall p :: p in kids <==> p in places && Inner(p))
    && (forall p :: p in places && p.Edge? ==> p.up in kids && p.via in kids[p.up])
    && (forall p, l {:trigger l in kids[p]} :: p in kids && l in kids[p] ==> Edge(p, l) in places || (p.Root? && l == 0))
    && (forall p :: p in kids ==> GoodKids(kids[p]))
    && kids[Root] != [] && kids[Root][0] == 0
  }

  /** `check` of every used slot is the slot of the parent.  Slots outside the tree are empty, `hole` apart. */
  ghost predicate Stored(arr: seq<Node>, g: Layout, hole: int) {
    && 0 in g.owner && g.owner[0] == Root && |arr| > 0 && arr[0].check == -1
    && (forall s :: s in g.owner ==> 0 <= s < |arr|)
    && (forall s :: s in g.owner && s != 0 ==>
          g.owner[s].Edge? && g.owner[s].up in g.at && arr[s].check == g.at[g.owner[s].up])
    && (forall s :: InUse(arr, s) && s != hole ==> s in g.owner)
  }

  /** The slot of the child of `p` under `l`. */
  function SlotOf(g: Layout, p: Path, l: byte): int
    requires (p.Root? && l == 0) || Edge(p, l) in g.at
  {
    if p.Root? && l == 0 then 0 else g.at[Edge(p, l)]
  }

  /** The label that follows index `i` in a chain; 0 at the end. */
  function After(ks: seq<byte>, i: nat): byte
    requires i < |ks|
  {
    if i + 1 < |ks| then ks[i + 1] else 0
  }

  function First(ks: seq<byte>): byte {
    if ks == [] then 0 else ks[0]
  }

  /** The child of `p` at index `i` of the chain sits where the base says and links to the next one. */
  ghost predicate KidOk(ninfo: seq<NInfo>, g: Layout, p: Path, base: int, ks: seq<byte>, i: nat)
  {
    && i < |ks| && base >= 0
    && ((p.Root? && ks[i] == 0) || Edge(p, ks[i]) in g.at)
    && SlotOf(g, p, ks[i]) == Child(base, ks[i])
    && 0 <= SlotOf(g, p, ks[i]) < |ninfo|
    && ninfo[SlotOf(g, p, ks[i])].sibling == After(ks, i)
  }

  /** The base of an inner place and the chain of its children. */
  ghost predicate NodeOk(arr: seq<Node>, ninfo: seq<NInfo>, g: Layout, p: Path) {
    && p in g.kids && p in g.at && 0 <= g.at[p] < |arr| && |ninfo| == |arr|
    && BaseOk(p, arr[g.at[p]].base, g.kids[p]) && arr[g.at[p]].base < |arr|
    && ninfo[g.at[p]].child == First(g.kids[p])
    && forall i :: 0 <= i < |g.kids[p]| ==> KidOk(ninfo, g, p, arr[g.at[p]].base, g.kids[p], i)
  }

  /** The root's base is 0; any other base lies outside block 0, or is -1 while there is no child. */
  predicate BaseOk(p: Path, base: int, ks: seq<byte>) {
    if p.Root? then base == 0 else if ks == [] then base == -1 else base >= 256
  }

  ghost predicate NodesOk(arr: seq<Node>, ninfo: seq<NInfo>, g: Layout, ex: set<Path>) {
    forall p :: p in g.kids && p !in ex ==> NodeOk(arr, ninfo, g, p)
  }

  /** The array holds the tree `g`; the family of the places in `ex` is being moved, and
      slot `hole`, unless 0, is used although it is no longer part of the tree. */
  ghost predicate TreeOk(arr: seq<Node>, ninfo: seq<NInfo>, g: Layout, hole: int, ex: set<Path>) {
    && Mirrored(g)
    && TreeShaped(g.at.Keys, g.kids)
    && Stored(arr, g, hole)
    && NodesOk(arr, ninfo, g, ex)
  }

  // ------------------------------------------------------------------ moving one place

  /** The layout with place `p` moved to slot `b`. */
  function Renamed(g: Layout, p: Path, b: int): Layout
    requires p in g.at
  {
    g.(at := g.at[p := b], owner := (g.owner - {g.at[p]})[b := p])
  }

  /** The array after the cell of `p` moved from its slot to `b` and its children were told. */
  ghost predicate CellMoved(arr: seq<Node>, ninfo: seq<NInfo>, g: Layout, p: Path, b: int,
                            arr': seq<Node>, ninfo': seq<NInfo>)
    requires p in g.at
  {
    var a := g.at[p];
    && |arr| <= |arr'| == |ninfo'| && 0 < b < |arr'|
    && (forall s :: s in g.owner && s != a && 0 <= s < |arr| ==>
          && arr'[s].base == arr[s].base
          && arr'[s].check == if s != 0 && arr[s].check == a then b else arr[s].check)
    && 0 <= a < |arr| && arr'[b].base == arr[a].base && arr'[b].check == arr[a].check
    && (forall s :: InUse(arr', s) ==> s in g.owner || s == b)
    && |ninfo| == |arr|
    && (forall s :: s in g.owner && s != a && 0 <= s < |ninfo| ==> ninfo'[s] == ninfo[s])
    && (Inner(p) ==> ninfo'[b].child == ninfo[a].child)
  }

  lemma RenamedMirrors(g: Layout, p: Path, b: int)
    requires Mirrored(g) && p in g.at && b !in g.owner
    ensures Mirrored(Renamed(g, p, b))
    ensures Renamed(g, p, b).at.Keys == g.at.Keys
  {
  }

  lemma RenamedStored(arr: seq<Node>, ninfo: seq<NInfo>, g: Layout, p: Path, b: int,
                      arr': seq<Node>, ninfo': seq<NInfo>)
    requires Mirrored(g) && TreeShaped(g.at.Keys, g.kids) && Stored(arr, g, 0)
    requires p in g.at && p.Edge? && b !in g.owner && CellMoved(arr, ninfo, g, p, b, arr', ninfo')
    ensures Stored(arr', Renamed(g, p, b), g.at[p])
  {
    var g' := Renamed(g, p, b);
    forall s | s in g'.owner && s != 0
      ensures 0 <= s < |arr'|
      ensures g'.owner[s].Edge? && g'.owner[s].up in g'.at && arr'[s].check == g'.at[g'.owner[s].up]
    {
      RenamedCheck(arr, ninfo, g, p, b, arr', ninfo', s);
    }
    hide Mirrored, TreeShaped;
  }

  lemma RenamedCheck(arr: seq<Node>, ninfo: seq<NInfo>, g: Layout, p: Path, b: int,
                     arr': seq<Node>, ninfo': seq<NInfo>, s: int)
    requires Mirrored(g) && Stored(arr, g, 0)
    requires p in g.at && p.Edge? && b !in g.owner && CellMoved(arr, ninfo, g, p, b, arr', ninfo')
    requires s in Renamed(g, p, b).owner && s != 0
    ensures var g' := Renamed(g, p, b);
            && 0 <= s < |arr'|
            && g'.owner[s].Edge? && g'.owner[s].up in g'.at && arr'[s].check == g'.at[g'.owner[s].up]
  {
    var g', a := Renamed(g, p, b), g.at[p];
    var t := if s == b then a else s;
    assert t in g.owner && g.owner[t] == g'.owner[s];
    assert g.at[g.owner[t].up] == a <==> g.owner[t].up == p;
    assert p.up != p;
  }

  lemma RenamedNode(arr: seq<Node>, ninfo: seq<NInfo>, g: Layout, p: Path, b: int,
                    arr': seq<Node>, ninfo': seq<NInfo>, q: Path)
    requires Mirrored(g) && TreeShaped(g.at.Keys, g.kids) && Stored(arr, g, 0)
    requires p in g.at && p.Edge? && b !in g.owner && CellMoved(arr, ninfo, g, p, b, arr', ninfo')
    requires q in g.kids && q != p.up && NodeOk(arr, ninfo, g, q)
    ensures NodeOk(arr', ninfo', Renamed(g, p, b), q)
  {
    var g', n := Renamed(g, p, b), g.at[q];
    var n' := g'.at[q];
    assert arr'[n'].base == arr[n].base && ninfo'[n'].child == ninfo[n].child;
    forall i | 0 <= i < |g.kids[q]|
      ensures KidOk(ninfo', g', q, arr[n].base, g.kids[q], i)
    {
      assert KidOk(ninfo, g, q, arr[n].base, g.kids[q], i);
      RenamedKid(arr, ninfo, g, p, b, arr', ninfo', q, i);
    }
    hide KidOk;
  }

  lemma RenamedKid(arr: seq<Node>, ninfo: seq<NInfo>, g: Layout, p: Path, b: int,
                   arr': seq<Node>, ninfo': seq<NInfo>, q: Path, i: nat)
    requires Mirrored(g) && Stored(arr, g, 0)
    requires p in g.at && p.Edge? && b !in g.owner && CellMoved(arr, ninfo, g, p, b, arr', ninfo')
    requires q in g.kids && q != p.up && q in g.at && 0 <= g.at[q] < |arr|
    requires KidOk(ninfo, g, q, arr[g.at[q]].base, g.kids[q], i)
    ensures KidOk(ninfo', Renamed(g, p, b), q, arr[g.at[q]].base, g.kids[q], i)
  {
    hide Child;
    var l := g.kids[q][i];
    var s := SlotOf(g, q, l);
    assert s in g.owner && s != g.at[p];
    assert SlotOf(Renamed(g, p, b), q, l) == s;
  }

  /** Moving the cell of one child of an exempted family keeps the tree. */
  lemma RenamedTree(arr: seq<Node>, ninfo: seq<NInfo>, g: Layout, p: Path, b: int,
                    arr': seq<Node>, ninfo': seq<NInfo>)
    requires p.Edge? && TreeOk(arr, ninfo, g, 0, {p.up})
    requires p in g.at && b !in g.owner && CellMoved(arr, ninfo, g, p, b, arr', ninfo')
    ensures TreeOk(arr', ninfo', Renamed(g, p, b), g.at[p], {p.up})
  {
    RenamedMirrors(g, p, b);
    RenamedStored(arr, ninfo, g, p, b, arr', ninfo');
    forall q | q in g.kids && q != p.up
      ensures NodeOk(arr', ninfo', Renamed(g, p, b), q)
    {
      RenamedNode(arr, ninfo, g, p, b, arr', ninfo', q);
    }
    hide Mirrored, TreeShaped, Stored, NodeOk, CellMoved;
  }

  // ------------------------------------------------------------------ adding one child

  /** The chain `ks` with `l` put in front, but behind the terminal. */
  function InsertKid(ks: seq<byte>, l: byte): seq<byte> {
    if ks != [] && ks[0] == 0 then [0, l] + ks[1..] else [l] + ks
  }

  /** The layout with a childless child of `p` under `l` at slot `c`. */
  function Grafted(g: Layout, p: Path, l: byte, c: int): Layout
    requires p in g.kids
  {
    Layout(g.at[Edge(p, l) := c], g.owner[c := Edge(p, l)], GraftedKids(g.kids, p, l))
  }

  function GraftedKids(kids: map<Path, seq<byte>>, p: Path, l: byte): map<Path, seq<byte>>
    requires p in kids
  {
    var kids' := kids[p := InsertKid(kids[p], l)];
    if l == 0 then kids' else kids'[Edge(p, l) := []]
  }

  /** Whether the sibling link stored at slot `s` belongs to the chain of `p`. */
  predicate OnChain(g: Layout, p: Path, s: int)
    requires s in g.owner
  {
    if s == 0 then p.Root? else g.owner[s] != Root && g.owner[s].up == p
  }

  /** The array after slot `c` became a child of `p`; only the chain of `p` changed. */
  ghost predicate LeafAdded(arr: seq<Node>, ninfo: seq<NInfo>, g: Layout, p: Path, l: byte, c: int,
                            arr': seq<Node>, ninfo': seq<NInfo>)
    requires p in g.at
  {
    && |arr| <= |arr'| == |ninfo'| && |ninfo| == |arr| && 0 < c < |arr'|
    && (forall s :: s in g.owner && 0 <= s < |arr| ==>
          && arr'[s].check == arr[s].check
          && (s != g.at[p] ==> arr'[s].base == arr[s].base && ninfo'[s].child == ninfo[s].child)
          && (!OnChain(g, p, s) ==> ninfo'[s].sibling == ninfo[s].sibling))
    && arr'[c] == Node(if l != 0 then -1 else 0, g.at[p])
    && (l != 0 ==> ninfo'[c].child == 0)
    && (forall s :: InUse(arr', s) ==> s in g.owner || s == c)
  }

  ghost predicate MayGraft(g: Layout, p: Path, l: byte, c: int) {
    && p in g.kids && Edge(p, l) !in g.at && (p.Root? ==> l != 0) && c !in g.owner
  }

  lemma InsertedGood(ks: seq<byte>, l: byte)
    requires GoodKids(ks) && l !in ks
    ensures GoodKids(InsertKid(ks, l))
    ensures forall m :: m in InsertKid(ks, l) <==> m in ks || m == l
    ensures ks != [] && ks[0] == 0 ==> InsertKid(ks, l)[0] == 0
  {
    assert ks != [] ==> ks == [ks[0]] + ks[1..];
    assert forall i :: 0 <= i < |ks| ==> ks[i] in ks;
  }

  lemma GraftedMirrors(g: Layout, p: Path, l: byte, c: int)
    requires Mirrored(g) && MayGraft(g, p, l, c)
    ensures Mirrored(Grafted(g, p, l, c))
  {
  }

  lemma GraftedShape(g: Layout, p: Path, l: byte, c: int)
    requires TreeShaped(g.at.Keys, g.kids) && MayGraft(g, p, l, c)
    ensures TreeShaped(Grafted(g, p, l, c).at.Keys, Grafted(g, p, l, c).kids)
  {
    var g' := Grafted(g, p, l, c);
    assert l !in g.kids[p];
    InsertedGood(g.kids[p], l);
    assert g'.at.Keys == g.at.Keys + {Edge(p, l)};
    GraftedChains(g, p, l);
    hide InsertKid, GoodKids, GraftedKids;
  }

  lemma GraftedChains(g: Layout, p: Path, l: byte)
    requires TreeShaped(g.at.Keys, g.kids) && p in g.kids && Edge(p, l) !in g.at && (p.Root? ==> l != 0)
    requires GoodKids(InsertKid(g.kids[p], l)) && forall m :: m in InsertKid(g.kids[p], l) <==> m in g.kids[p] || m == l
    requires p.Root? ==> InsertKid(g.kids[p], l) != [] && InsertKid(g.kids[p], l)[0] == 0
    ensures var places, kids := g.at.Keys + {Edge(p, l)}, GraftedKids(g.kids, p, l);
            && (forall q :: q in kids <==> q in places && Inner(q))
            && (forall q :: q in kids ==> GoodKids(kids[q]))
            && (forall q, m {:trigger m in kids[q]} :: q in kids && m in kids[q] ==> Edge(q, m) in places || (q.Root? && m == 0))
            && (forall q :: q in places && q.Edge? ==> q.up in kids && q.via in kids[q.up])
            && kids[Root] != [] && kids[Root][0] == 0
  {
    assert Edge(p, l) !in g.kids;
    NoKidsGood();
    hide InsertKid, GoodKids;
  }

  lemma NoKidsGood()
    ensures GoodKids([])
  {
  }

  lemma GraftedStored(arr: seq<Node>, ninfo: seq<NInfo>, g: Layout, hole: int, p: Path, l: byte, c: int,
                      arr': seq<Node>, ninfo': seq<NInfo>)
    requires Mirrored(g) && TreeShaped(g.at.Keys, g.kids) && Stored(arr, g, hole)
    requires MayGraft(g, p, l, c) && LeafAdded(arr, ninfo, g, p, l, c, arr', ninfo')
    ensures Stored(arr', Grafted(g, p, l, c), 0)
  {
    hide InsertKid, GoodKids;
  }

  lemma GraftedNode(arr: seq<Node>, ninfo: seq<NInfo>, g: Layout, hole: int, p: Path, l: byte, c: int,
                    arr': seq<Node>, ninfo': seq<NInfo>, q: Path)
    requires Mirrored(g) && TreeShaped(g.at.Keys, g.kids) && Stored(arr, g, hole)
    requires MayGraft(g, p, l, c) && LeafAdded(arr, ninfo, g, p, l, c, arr', ninfo')
    requires q in g.kids && q != p && NodeOk(arr, ninfo, g, q)
    ensures NodeOk(arr', ninfo', Grafted(g, p, l, c), q)
  {
    var g' := Grafted(g, p, l, c);
    var n := g.at[q];
    assert g'.kids[q] == g.kids[q] && g'.at[q] == n && n != g.at[p];
    forall i | 0 <= i < |g.kids[q]|
      ensures KidOk(ninfo', g', q, arr[n].base, g.kids[q], i)
    {
      assert KidOk(ninfo, g, q, arr[n].base, g.kids[q], i);
      GraftedKid(arr, ninfo, g, hole, p, l, c, arr', ninfo', q, i);
    }
    hide KidOk, TreeShaped, Mirrored;
  }

  lemma GraftedKid(arr: seq<Node>, ninfo: seq<NInfo>, g: Layout, hole: int, p: Path, l: byte, c: int,
                   arr': seq<Node>, ninfo': seq<NInfo>, q: Path, i: nat)
    requires Mirrored(g) && Stored(arr, g, hole)
    requires p in g.at && MayGraft(g, p, l, c) && LeafAdded(arr, ninfo, g, p, l, c, arr', ninfo')
    requires q in g.kids && q != p && q in g.at && 0 <= g.at[q] < |arr|
    requires KidOk(ninfo, g, q, arr[g.at[q]].base, g.kids[q], i)
    ensures KidOk(ninfo', Grafted(g, p, l, c), q, arr[g.at[q]].base, g.kids[q], i)
  {
    hide Child, InsertKid;
    var m := g.kids[q][i];
    var s := SlotOf(g, q, m);
    assert s in g.owner && !OnChain(g, p, s);
    assert SlotOf(Grafted(g, p, l, c), q, m) == s;
  }

  lemma GraftedLeaf(arr: seq<Node>, ninfo: seq<NInfo>, g: Layout, p: Path, l: byte, c: int,
                    arr': seq<Node>, ninfo': seq<NInfo>)
    requires MayGraft(g, p, l, c) && l != 0 && p in g.at && LeafAdded(arr, ninfo, g, p, l, c, arr', ninfo')
    ensures NodeOk(arr', ninfo', Grafted(g, p, l, c), Edge(p, l))
  {
  }

  /** Adding a leaf keeps the tree; the chain of the parent is left to be accounted for. */
  lemma GraftedTree(arr: seq<Node>, ninfo: seq<NInfo>, g: Layout, hole: int, ex: set<Path>, p: Path, l: byte, c: int,
                    arr': seq<Node>, ninfo': seq<NInfo>)
    requires TreeOk(arr, ninfo, g, hole, ex)
    requires p in g.at && MayGraft(g, p, l, c) && LeafAdded(arr, ninfo, g, p, l, c, arr', ninfo')
    ensures TreeOk(arr', ninfo', Grafted(g, p, l, c), 0, ex + {p})
  {
    GraftedMirrors(g, p, l, c);
    GraftedShape(g, p, l, c);
    GraftedStored(arr, ninfo, g, hole, p, l, c, arr', ninfo');
    var g' := Grafted(g, p, l, c);
    forall q | q in g'.kids && q !in ex + {p}
      ensures NodeOk(arr', ninfo', g', q)
    {
      if q == Edge(p, l) {
        GraftedLeaf(arr, ninfo, g, p, l, c, arr', ninfo');
      } else {
        GraftedNode(arr, ninfo, g, hole, p, l, c, arr', ninfo', q);
      }
    }
    hide Mirrored, TreeShaped, Stored, NodeOk, LeafAdded, MayGraft;
  }

  /** The side table after `c` was linked into the chain `ks` of `p`. */
  ghost predicate SiblingLinked(ninfo: seq<NInfo>, g: Layout, p: Path, l: byte, c: int, ninfo': seq<NInfo>)
    requires p in g.at && p in g.kids
  {
    var ks := g.kids[p];
    && |ninfo| <= |ninfo'| && 0 <= c < |ninfo'| && 0 <= g.at[p] < |ninfo|
    && if ks != [] && ks[0] == 0 then
         && (p.Root? || Edge(p, 0) in g.at) && 0 <= SlotOf(g, p, 0) < |ninfo'|
         && ninfo'[c].sibling == After(ks, 0)
         && ninfo'[SlotOf(g, p, 0)].sibling == l
         && ninfo'[g.at[p]].child == 0
         && (forall s :: s in g.owner && 0 <= s < |ninfo| && s != SlotOf(g, p, 0) ==> ninfo'[s].sibling == ninfo[s].sibling)
       else
         && ninfo'[c].sibling == First(ks)
         && ninfo'[g.at[p]].child == l
         && (forall s :: s in g.owner && 0 <= s < |ninfo| ==> ninfo'[s].sibling == ninfo[s].sibling)
  }

  /** The base of the parent after `c` became its child under `l`. */
  ghost predicate BaseSettled(arr: seq<Node>, g: Layout, p: Path, l: byte, c: int, arr': seq<Node>)
    requires p in g.at && p in g.kids
  {
    && 0 <= g.at[p] < |arr| <= |arr'| && c >= 0
    && var base := arr'[g.at[p]].base;
       && 0 <= base < |arr'| && BaseOk(p, base, [l])
       && Child(base, l) == c
       && (g.kids[p] != [] ==> base == arr[g.at[p]].base)
  }

  lemma GraftedParent(arr: seq<Node>, ninfo: seq<NInfo>, g: Layout, hole: int, p: Path, l: byte, c: int,
                      arr': seq<Node>, ninfo': seq<NInfo>)
    requires Mirrored(g) && TreeShaped(g.at.Keys, g.kids) && Stored(arr, g, hole)
    requires NodeOk(arr, ninfo, g, p) && MayGraft(g, p, l, c) && LeafAdded(arr, ninfo, g, p, l, c, arr', ninfo')
    requires SiblingLinked(ninfo, g, p, l, c, ninfo') && BaseSettled(arr, g, p, l, c, arr')
    ensures NodeOk(arr', ninfo', Grafted(g, p, l, c), p)
  {
    var g', ks, base := Grafted(g, p, l, c), g.kids[p], arr'[g.at[p]].base;
    var ks' := InsertKid(ks, l);
    InsertedGood(ks, l);
    forall i | 0 <= i < |ks'|
      ensures KidOk(ninfo', g', p, base, ks', i)
    {
      GraftedParentKid(arr, ninfo, g, hole, p, l, c, arr', ninfo', i);
    }
    assert g'.kids[p] == ks';
    GraftedChild(ks, l);
    hide KidOk, TreeShaped, Mirrored, GoodKids, InsertKid, Child;
  }

  lemma GraftedChild(ks: seq<byte>, l: byte)
    ensures First(InsertKid(ks, l)) == if ks != [] && ks[0] == 0 then 0 else l
    ensures InsertKid(ks, l) != []
  {
  }

  lemma GraftedParentKid(arr: seq<Node>, ninfo: seq<NInfo>, g: Layout, hole: int, p: Path, l: byte, c: int,
                         arr': seq<Node>, ninfo': seq<NInfo>, i: nat)
    requires Mirrored(g) && TreeShaped(g.at.Keys, g.kids) && Stored(arr, g, hole)
    requires NodeOk(arr, ninfo, g, p) && MayGraft(g, p, l, c) && LeafAdded(arr, ninfo, g, p, l, c, arr', ninfo')
    requires SiblingLinked(ninfo, g, p, l, c, ninfo') && BaseSettled(arr, g, p, l, c, arr')
    requires i < |InsertKid(g.kids[p], l)|
    ensures KidOk(ninfo', Grafted(g, p, l, c), p, arr'[g.at[p]].base, InsertKid(g.kids[p], l), i)
  {
    var ks := g.kids[p];
    if i == if ks != [] && ks[0] == 0 then 1 else 0 {
      InsertedNew(ks, l);
    } else {
      GraftedOldKid(arr, ninfo, g, hole, p, l, c, arr', ninfo', i);
    }
    hide TreeShaped, Mirrored, Stored, InsertKid, Child, NodeOk;
  }

  lemma GraftedOldKid(arr: seq<Node>, ninfo: seq<NInfo>, g: Layout, hole: int, p: Path, l: byte, c: int,
                      arr': seq<Node>, ninfo': seq<NInfo>, i: nat)
    requires Mirrored(g) && TreeShaped(g.at.Keys, g.kids) && Stored(arr, g, hole)
    requires NodeOk(arr, ninfo, g, p) && MayGraft(g, p, l, c)
    requires SiblingLinked(ninfo, g, p, l, c, ninfo') && BaseSettled(arr, g, p, l, c, arr')
    requires i < |InsertKid(g.kids[p], l)| && i != if g.kids[p] != [] && g.kids[p][0] == 0 then 1 else 0
    ensures KidOk(ninfo', Grafted(g, p, l, c), p, arr'[g.at[p]].base, InsertKid(g.kids[p], l), i)
  {
    var ks, base, ks' := g.kids[p], arr'[g.at[p]].base, InsertKid(g.kids[p], l);
    var k := if ks != [] && ks[0] == 0 then 1 else 0;
    var j := if i < k then i else i - 1;
    InsertedOld(ks, l, i);
    assert KidOk(ninfo, g, p, base, ks, j) && GoodKids(ks);
    var s := SlotOf(g, p, ks[j]);
    assert s in g.owner && (k == 1 && j > 0 ==> s != SlotOf(g, p, 0));
    assert ninfo'[s].sibling == After(ks', i);
    assert ((p.Root? && ks[j] == 0) || Edge(p, ks[j]) in Grafted(g, p, l, c).at) && SlotOf(Grafted(g, p, l, c), p, ks[j]) == s;
    assert 0 <= s < |ninfo'|;
    hide *;
    KidMoved(ninfo, g, p, base, ks, j, ninfo', Grafted(g, p, l, c), ks', i);
  }

  /** A child whose slot stays is in order in the new chain once its sibling link is. */
  lemma KidMoved(ninfo: seq<NInfo>, g: Layout, p: Path, base: nat, ks: seq<byte>, j: nat,
                 ninfo': seq<NInfo>, g': Layout, ks': seq<byte>, i: nat)
    requires KidOk(ninfo, g, p, base, ks, j) && i < |ks'| && ks'[i] == ks[j] && |ninfo'| >= |ninfo|
    requires (p.Root? && ks[j] == 0) || Edge(p, ks[j]) in g'.at
    requires SlotOf(g', p, ks[j]) == SlotOf(g, p, ks[j]) && ninfo'[SlotOf(g, p, ks[j])].sibling == After(ks', i)
    ensures KidOk(ninfo', g', p, base, ks', i)
  {
    hide Child, After;
  }

  lemma InsertedNew(ks: seq<byte>, l: byte)
    ensures var k := if ks != [] && ks[0] == 0 then 1 else 0;
            && k < |InsertKid(ks, l)| && InsertKid(ks, l)[k] == l
            && After(InsertKid(ks, l), k) == if k == 1 then After(ks, 0) else First(ks)
  {
  }

  lemma InsertedOld(ks: seq<byte>, l: byte, i: nat)
    requires i < |InsertKid(ks, l)|
    requires i != if ks != [] && ks[0] == 0 then 1 else 0
    ensures var k := if ks != [] && ks[0] == 0 then 1 else 0;
            var j := if i < k then i else i - 1;
            && j < |ks| && InsertKid(ks, l)[i] == ks[j]
            && After(InsertKid(ks, l), i) == if i < k then l else After(ks, j)
  {
  }

  /** One step along a chain. */
  lemma ChainStep(arr: seq<Node>, ninfo: seq<NInfo>, g: Layout, p: Path, i: nat)
    requires NodeOk(arr, ninfo, g, p) && GoodKids(g.kids[p]) && i < |g.kids[p]|
    ensures var ks, base := g.kids[p], arr[g.at[p]].base;
            && base >= 0 && Child(base, ks[i]) < |ninfo|
            && ninfo[Child(base, ks[i])].sibling == After(ks, i)
            && (After(ks, i) == 0 <==> i + 1 == |ks|)
            && (i + 1 < |ks| ==> After(ks, i) == ks[i + 1])
            && (i > 0 ==> ks[i] != 0)
  {
    assert KidOk(ninfo, g, p, arr[g.at[p]].base, g.kids[p], i);
    hide Child;
  }

  lemma ChildFirst(arr: seq<Node>, ninfo: seq<NInfo>, g: Layout, p: Path)
    requires NodeOk(arr, ninfo, g, p) && g.kids[p] != []
    ensures ninfo[g.at[p]].child == g.kids[p][0]
  {
    hide KidOk;
  }

  /** A chain and a new label, listed terminal first, then the new label, then the rest. */
  lemma KidsGathered(ks: seq<byte>, extra: int) returns (all: seq<byte>)
    requires ks != [] && -1 <= extra < 256
    ensures all == if extra == -1 then ks else InsertKid(ks, extra)
    ensures var head, k := if ks[0] == 0 then [0] else [], if ks[0] == 0 then 1 else 0;
            if extra == -1 then Gathering(head, ks, k, all) else Gathering(head + [extra], ks, k, all)
  {
    all := if extra == -1 then ks else InsertKid(ks, extra);
  }

  /** The labels listed so far, followed by the rest of the chain, are all the labels wanted. */
  ghost predicate Gathering(labels: seq<byte>, ks: seq<byte>, i: nat, all: seq<byte>) {
    i <= |ks| && labels + ks[i..] == all && (i == 0 ==> ks != [] && ks[0] != 0)
  }

  lemma OneKidMore(labels: seq<byte>, ks: seq<byte>, i: nat, all: seq<byte>)
    requires Gathering(labels, ks, i, all) && i < |ks|
    ensures Gathering(labels + [ks[i]], ks, i + 1, all)
  {
  }

  lemma KidsDone(labels: seq<byte>, ks: seq<byte>, i: nat, all: seq<byte>)
    requires Gathering(labels, ks, i, all) && GoodKids(ks) && (i < |ks| ==> ks[i] == 0)
    ensures labels == all
  {
  }

  /** The side table with the child of `from` under `l` linked behind the terminal, or in front. */
  function WithSibling(ninfo: seq<NInfo>, from: int, base: nat, l: byte, behind: bool): seq<NInfo>
    requires 0 <= from < |ninfo| && Child(base, l) < |ninfo| && (behind ==> Child(base, 0) < |ninfo|)
  {
    var c := Child(base, l);
    if behind then
      var s := Child(base, 0);
      var ninfo1 := ninfo[c := ninfo[c].(sibling := ninfo[s].sibling)];
      ninfo1[s := ninfo1[s].(sibling := l)]
    else
      var ninfo1 := ninfo[c := ninfo[c].(sibling := ninfo[from].child)];
      ninfo1[from := ninfo1[from].(child := l)]
  }

  /** What linking a sibling does to the slots of the tree. */
  lemma SiblingPushed(arr: seq<Node>, ninfo: seq<NInfo>, g: Layout, hole: int, p: Path, l: byte, base: nat,
                      ninfo1: seq<NInfo>)
    requires Mirrored(g) && Stored(arr, g, hole) && NodeOk(arr, ninfo, g, p)
    requires MayGraft(g, p, l, Child(base, l)) && GoodKids(g.kids[p]) && |ninfo| <= |ninfo1|
    requires Child(base, l) < |ninfo1| && base < |ninfo1|
    requires g.kids[p] != [] ==> base == arr[g.at[p]].base
    requires forall s :: s in g.owner && 0 <= s < |ninfo| ==> ninfo1[s] == ninfo[s]
    ensures Child(base, 0) < |ninfo1|
    ensures ninfo[g.at[p]].child == ninfo1[g.at[p]].child
    ensures var c := Child(base, l);
            var behind := g.kids[p] != [] && ninfo[g.at[p]].child == 0;
            var ninfo2 := WithSibling(ninfo1, g.at[p], base, l, behind);
            && SiblingLinked(ninfo, g, p, l, c, ninfo2)
            && |ninfo2| == |ninfo1| && ninfo2[c].child == ninfo1[c].child
            && (forall s :: 0 <= s < |ninfo1| && s != c ==>
                  && (s != g.at[p] ==> ninfo2[s].child == ninfo1[s].child)
                  && (s in g.owner && !OnChain(g, p, s) ==> ninfo2[s].sibling == ninfo1[s].sibling))
            && (forall s :: 0 <= s < |ninfo1| && s != c && s !in g.owner ==> ninfo2[s] == ninfo1[s])
  {
    ChildZero(base);
    var c, ks := Child(base, l), g.kids[p];
    assert g.at[p] in g.owner && g.at[p] != c;
    if ks != [] && ninfo[g.at[p]].child == 0 {
      assert KidOk(ninfo, g, p, base, ks, 0);
      var s := SlotOf(g, p, 0);
      assert s in g.owner && s == Child(base, 0) && OnChain(g, p, s);
    }
    hide Child, GoodKids, KidOk, Mirrored, Stored;
  }

  /** The tree depends only on the slots it occupies. */
  lemma TreeElsewhere(arr: seq<Node>, ninfo: seq<NInfo>, g: Layout, hole: int, ex: set<Path>,
                      arr': seq<Node>, ninfo': seq<NInfo>, hole': int)
    requires TreeOk(arr, ninfo, g, hole, ex) && |ninfo| == |arr| <= |arr'| == |ninfo'|
    requires forall s :: s in g.owner && 0 <= s < |arr| ==> arr'[s] == arr[s] && ninfo'[s] == ninfo[s]
    requires forall s :: InUse(arr', s) && s != hole' ==> s in g.owner
    ensures TreeOk(arr', ninfo', g, hole', ex)
  {
    assert Stored(arr', g, hole');
    forall p | p in g.kids && p !in ex
      ensures NodeOk(arr', ninfo', g, p)
    {
      NodeElsewhere(arr, ninfo, g, p, arr', ninfo');
    }
    hide Stored, NodeOk, Mirrored, TreeShaped;
  }

  lemma NodeElsewhere(arr: seq<Node>, ninfo: seq<NInfo>, g: Layout, p: Path, arr': seq<Node>, ninfo': seq<NInfo>)
    requires Mirrored(g) && NodeOk(arr, ninfo, g, p) && |arr| <= |arr'| == |ninfo'|
    requires 0 in g.owner
    requires forall s :: s in g.owner && 0 <= s < |arr| ==> arr'[s] == arr[s] && ninfo'[s] == ninfo[s]
    ensures NodeOk(arr', ninfo', g, p)
  {
    forall i | 0 <= i < |g.kids[p]|
      ensures KidOk(ninfo', g, p, arr[g.at[p]].base, g.kids[p], i)
    {
      assert KidOk(ninfo, g, p, arr[g.at[p]].base, g.kids[p], i);
      hide Child;
      assert SlotOf(g, p, g.kids[p][i]) in g.owner;
    }
    assert g.at[p] in g.owner;
    hide KidOk;
  }
}
