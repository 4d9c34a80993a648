/** Taking leaves off the tree. */
module Pruning {
  import opened Slots
  import opened Cells
  import opened Layouts
  import opened Enumeration

  /** `x` is a terminal, or an inner place whose last child has been taken off. */
  ghost predicate Bare(g: Layout, x: Path) {
    && x.Edge? && x in g.at && x.up in g.at && x.up in g.kids && x.via in g.kids[x.up]
    && (x in g.kids ==> g.kids[x] == [])
  }

  /** The chain without the label `l`. */
  function Dropped(ks: seq<byte>, l: byte): (r: seq<byte>)
    requires l in ks
    ensures |r| == |ks| - 1
  {
    ks[..IndexOf(ks, l)] + ks[IndexOf(ks, l) + 1..]
  }

  /** The layout without the leaf `x`. */
  ghost function Pruned(g: Layout, x: Path): Layout
    requires Bare(g, x)
  {
    Layout(g.at - {x}, g.owner - {g.at[x]}, (g.kids - {x})[x.up := Dropped(g.kids[x.up], x.via)])
  }

  lemma DroppedGood(ks: seq<byte>, l: byte)
    requires GoodKids(ks) && l in ks
    ensures GoodKids(Dropped(ks, l))
    ensures forall m :: m in Dropped(ks, l) <==> m in ks && m != l
    ensures ks[0] == 0 && l != 0 ==> Dropped(ks, l) != [] && Dropped(ks, l)[0] == 0
  {
    var k := IndexOf(ks, l);
    var r := ks[..k] + ks[k + 1..];
    assert forall i :: 0 <= i < |r| ==> r[i] == ks[if i < k then i else i + 1];
    forall m | m in ks && m != l
      ensures m in r
    {
      var i :| 0 <= i < |ks| && ks[i] == m;
      assert r[if i < k then i else i - 1] == m;
    }
    hide IndexOf;
  }

  lemma PrunedMirrors(g: Layout, x: Path)
    requires Mirrored(g) && Bare(g, x)
    ensures Mirrored(Pruned(g, x))
  {
    hide Dropped;
  }

  lemma PrunedShape(g: Layout, x: Path)
    requires TreeShaped(g.at.Keys, g.kids) && Bare(g, x)
    ensures TreeShaped(Pruned(g, x).at.Keys, Pruned(g, x).kids)
  {
    DroppedGood(g.kids[x.up], x.via);
    assert Pruned(g, x).at.Keys == g.at.Keys - {x};
    hide Dropped, GoodKids, IndexOf;
    PrunedChains(g, x);
    hide Bare;
  }

  lemma PrunedChains(g: Layout, x: Path)
    requires TreeShaped(g.at.Keys, g.kids) && Bare(g, x)
    requires GoodKids(Dropped(g.kids[x.up], x.via))
    requires forall m :: m in Dropped(g.kids[x.up], x.via) <==> m in g.kids[x.up] && m != x.via
    requires x.up.Root? ==> Dropped(g.kids[x.up], x.via) != [] && Dropped(g.kids[x.up], x.via)[0] == 0
    ensures var places, kids := g.at.Keys - {x}, Pruned(g, x).kids;
            && (forall q :: q in kids <==> q in places && Inner(q))
            && (forall q :: q in kids ==> GoodKids(kids[q]))
            && (forall q, m {:trigger m in kids[q]} :: q in kids && m in kids[q] ==> Edge(q, m) in places || (q.Root? && m == 0))
            && (forall q :: q in places && q.Edge? ==> q.up in kids && q.via in kids[q.up])
            && kids[Root] != [] && kids[Root][0] == 0
  {
    hide Dropped, GoodKids;
  }

  /** The slot of the leaf stays in use for now. */
  lemma PrunedStored(arr: seq<Node>, g: Layout, x: Path)
    requires Mirrored(g) && TreeShaped(g.at.Keys, g.kids) && Stored(arr, g, 0) && Bare(g, x)
    ensures Stored(arr, Pruned(g, x), g.at[x])
  {
    hide Dropped, GoodKids;
    assert x != Root;
  }

  /** The side table changed at most in the chain of the parent of `x`. */
  ghost predicate Unchained(ninfo: seq<NInfo>, g: Layout, x: Path, ninfo': seq<NInfo>)
    requires Bare(g, x)
  {
    && |ninfo'| == |ninfo|
    && forall s :: s in g.owner && 0 <= s < |ninfo| ==>
         && (s != g.at[x.up] ==> ninfo'[s].child == ninfo[s].child)
         && (!OnChain(g, x.up, s) ==> ninfo'[s].sibling == ninfo[s].sibling)
  }

  lemma PrunedNode(arr: seq<Node>, ninfo: seq<NInfo>, g: Layout, x: Path, ninfo': seq<NInfo>, q: Path)
    requires Mirrored(g) && TreeShaped(g.at.Keys, g.kids) && Stored(arr, g, 0) && Bare(g, x)
    requires Unchained(ninfo, g, x, ninfo') && q in g.kids && q != x && q != x.up && NodeOk(arr, ninfo, g, q)
    ensures NodeOk(arr, ninfo', Pruned(g, x), q)
  {
    hide KidOk, TreeShaped, Dropped;
    var g', base := Pruned(g, x), arr[g.at[q]].base;
    assert g.at[q] in g.owner && g.at[q] != g.at[x.up];
    forall i | 0 <= i < |g.kids[q]|
      ensures KidOk(ninfo', g', q, base, g.kids[q], i)
    {
      assert KidOk(ninfo, g, q, base, g.kids[q], i);
      PrunedKid(ninfo, g, x, ninfo', q, base, i);
    }
    hide Mirrored;
  }

  lemma PrunedKid(ninfo: seq<NInfo>, g: Layout, x: Path, ninfo': seq<NInfo>, q: Path, base: int, i: nat)
    requires Mirrored(g) && Bare(g, x) && 0 in g.owner && g.owner[0] == Root
    requires Unchained(ninfo, g, x, ninfo') && q in g.kids && q != x.up && KidOk(ninfo, g, q, base, g.kids[q], i)
    ensures KidOk(ninfo', Pruned(g, x), q, base, g.kids[q], i)
  {
    hide Child, Dropped;
    var m := g.kids[q][i];
    var s := SlotOf(g, q, m);
    assert s in g.owner && !OnChain(g, x.up, s);
    assert SlotOf(Pruned(g, x), q, m) == s;
  }

  /** The side table after label index `k` was taken out of the chain of the parent of `x`. */
  ghost predicate ChainCut(ninfo: seq<NInfo>, g: Layout, x: Path, base: nat, k: nat, ninfo': seq<NInfo>)
    requires Bare(g, x) && k < |g.kids[x.up]|
  {
    var ks, n := g.kids[x.up], g.at[x.up];
    if k == 0 then 0 <= n < |ninfo| && ninfo' == ninfo[n := ninfo[n].(child := After(ks, 0))]
    else var s := Child(base, ks[k - 1]);
         s < |ninfo| && ninfo' == ninfo[s := ninfo[s].(sibling := After(ks, k))]
  }

  lemma CutFrame(arr: seq<Node>, ninfo: seq<NInfo>, g: Layout, x: Path, k: nat, ninfo': seq<NInfo>)
    requires Mirrored(g) && Stored(arr, g, 0) && Bare(g, x) && NodeOk(arr, ninfo, g, x.up) && GoodKids(g.kids[x.up])
    requires k < |g.kids[x.up]| && arr[g.at[x.up]].base >= 0
    requires ChainCut(ninfo, g, x, arr[g.at[x.up]].base, k, ninfo')
    ensures Unchained(ninfo, g, x, ninfo')
  {
    if k > 0 {
      assert KidOk(ninfo, g, x.up, arr[g.at[x.up]].base, g.kids[x.up], k - 1);
      hide Child;
      assert SlotOf(g, x.up, g.kids[x.up][k - 1]) in g.owner;
    }
  }

  lemma DroppedAt(ks: seq<byte>, l: byte, i: nat)
    requires l in ks && i < |ks| - 1
    ensures var k := IndexOf(ks, l);
            var j := if i < k then i else i + 1;
            && Dropped(ks, l)[i] == ks[j]
            && After(Dropped(ks, l), i) == if j + 1 == k then After(ks, k) else After(ks, j)
  {
    hide IndexOf;
  }

  lemma CutKid(arr: seq<Node>, ninfo: seq<NInfo>, g: Layout, x: Path, ninfo': seq<NInfo>, base: nat, i: nat)
    requires Mirrored(g) && TreeShaped(g.at.Keys, g.kids) && Stored(arr, g, 0) && Bare(g, x)
    requires NodeOk(arr, ninfo, g, x.up) && base == arr[g.at[x.up]].base
    requires ChainCut(ninfo, g, x, base, IndexOf(g.kids[x.up], x.via), ninfo')
    requires i < |g.kids[x.up]| - 1
    ensures KidOk(ninfo', Pruned(g, x), x.up, base, Dropped(g.kids[x.up], x.via), i)
  {
    var ks, k := g.kids[x.up], IndexOf(g.kids[x.up], x.via);
    var j := if i < k then i else i + 1;
    DroppedAt(ks, x.via, i);
    assert KidOk(ninfo, g, x.up, base, ks, j);
    CutLink(arr, ninfo, g, x, ninfo', base, j);
    CutSlots(g, x, j, k);
    assert SlotOf(Pruned(g, x), x.up, ks[j]) == SlotOf(g, x.up, ks[j]);
    hide *;
    KidMoved(ninfo, g, x.up, base, ks, j, ninfo', Pruned(g, x), Dropped(ks, x.via), i);
  }

  /** The link from another child of the chain. */
  lemma CutLink(arr: seq<Node>, ninfo: seq<NInfo>, g: Layout, x: Path, ninfo': seq<NInfo>, base: nat, j: nat)
    requires Mirrored(g) && TreeShaped(g.at.Keys, g.kids) && Stored(arr, g, 0) && Bare(g, x)
    requires NodeOk(arr, ninfo, g, x.up) && base == arr[g.at[x.up]].base
    requires ChainCut(ninfo, g, x, base, IndexOf(g.kids[x.up], x.via), ninfo')
    requires j < |g.kids[x.up]| && KidOk(ninfo, g, x.up, base, g.kids[x.up], j)
    ensures var ks, k := g.kids[x.up], IndexOf(g.kids[x.up], x.via);
            && |ninfo'| == |ninfo|
            && ninfo'[SlotOf(g, x.up, ks[j])].sibling == if j + 1 == k then After(ks, k) else After(ks, j)
  {
    var ks, k := g.kids[x.up], IndexOf(g.kids[x.up], x.via);
    if k > 0 {
      assert KidOk(ninfo, g, x.up, base, ks, k - 1);
      CutSlots(g, x, j, k - 1);
    }
    hide Child, IndexOf, Mirrored, TreeShaped, Stored, NodeOk, GoodKids, After;
  }

  /** Different labels of a chain lead to different slots. */
  lemma CutSlots(g: Layout, x: Path, i: nat, j: nat)
    requires Mirrored(g) && TreeShaped(g.at.Keys, g.kids) && Bare(g, x) && 0 in g.owner && g.owner[0] == Root
    requires i < |g.kids[x.up]| && j < |g.kids[x.up]|
    ensures var p, ks := x.up, g.kids[x.up];
            && ((p.Root? && ks[i] == 0) || Edge(p, ks[i]) in g.at)
            && ((p.Root? && ks[j] == 0) || Edge(p, ks[j]) in g.at)
            && (SlotOf(g, p, ks[i]) == SlotOf(g, p, ks[j]) ==> i == j)
  {
    var p, ks := x.up, g.kids[x.up];
    assert ks[i] in ks && ks[j] in ks && GoodKids(ks);
  }

  lemma CutParent(arr: seq<Node>, ninfo: seq<NInfo>, g: Layout, x: Path, ninfo': seq<NInfo>)
    requires Mirrored(g) && TreeShaped(g.at.Keys, g.kids) && Stored(arr, g, 0) && Bare(g, x)
    requires NodeOk(arr, ninfo, g, x.up) && |g.kids[x.up]| >= 2 && arr[g.at[x.up]].base >= 0
    requires ChainCut(ninfo, g, x, arr[g.at[x.up]].base, IndexOf(g.kids[x.up], x.via), ninfo')
    ensures NodeOk(arr, ninfo', Pruned(g, x), x.up)
  {
    var base, ks' := arr[g.at[x.up]].base, Dropped(g.kids[x.up], x.via);
    forall i | 0 <= i < |ks'|
      ensures KidOk(ninfo', Pruned(g, x), x.up, base, ks', i)
    {
      CutKid(arr, ninfo, g, x, ninfo', base, i);
    }
    CutFirst(arr, ninfo, g, x, ninfo');
    hide KidOk, Mirrored, TreeShaped, Stored, Child, Dropped, ChainCut;
  }

  lemma CutFirst(arr: seq<Node>, ninfo: seq<NInfo>, g: Layout, x: Path, ninfo': seq<NInfo>)
    requires Bare(g, x) && NodeOk(arr, ninfo, g, x.up) && |g.kids[x.up]| >= 2 && arr[g.at[x.up]].base >= 0
    requires ChainCut(ninfo, g, x, arr[g.at[x.up]].base, IndexOf(g.kids[x.up], x.via), ninfo')
    ensures |ninfo'| == |ninfo|
    ensures ninfo'[g.at[x.up]].child == First(Dropped(g.kids[x.up], x.via))
  {
    DroppedAt(g.kids[x.up], x.via, 0);
    hide KidOk, Child, IndexOf;
  }

  /** Cutting a leaf out of a chain of several keeps the tree, its slot apart. */
  lemma CutTree(arr: seq<Node>, ninfo: seq<NInfo>, g: Layout, x: Path, ninfo': seq<NInfo>)
    requires TreeOk(arr, ninfo, g, 0, {x}) && Bare(g, x) && |g.kids[x.up]| >= 2 && arr[g.at[x.up]].base >= 0
    requires ChainCut(ninfo, g, x, arr[g.at[x.up]].base, IndexOf(g.kids[x.up], x.via), ninfo')
    ensures TreeOk(arr, ninfo', Pruned(g, x), g.at[x], {})
  {
    var p := x.up;
    assert p != x && NodeOk(arr, ninfo, g, p) && GoodKids(g.kids[p]);
    CutFrame(arr, ninfo, g, x, IndexOf(g.kids[p], x.via), ninfo');
    PrunedMirrors(g, x);
    PrunedShape(g, x);
    PrunedStored(arr, g, x);
    CutParent(arr, ninfo, g, x, ninfo');
    var g' := Pruned(g, x);
    forall q | q in g'.kids
      ensures NodeOk(arr, ninfo', g', q)
    {
      if q != p {
        PrunedNode(arr, ninfo, g, x, ninfo', q);
      }
    }
    hide Mirrored, TreeShaped, Stored, NodeOk, Child, Dropped, ChainCut, Unchained, IndexOf;
  }

  /** Taking off an only child leaves its parent bare. */
  lemma OnlyChildTree(arr: seq<Node>, ninfo: seq<NInfo>, g: Layout, x: Path)
    requires TreeOk(arr, ninfo, g, 0, {x}) && Bare(g, x) && |g.kids[x.up]| == 1
    ensures TreeOk(arr, ninfo, Pruned(g, x), g.at[x], {x.up})
    ensures Bare(Pruned(g, x), x.up)
  {
    PrunedMirrors(g, x);
    PrunedShape(g, x);
    PrunedStored(arr, g, x);
    var g' := Pruned(g, x);
    OnlyChildNotRoot(g, x);
    forall q | q in g'.kids && q != x.up
      ensures NodeOk(arr, ninfo, g', q)
    {
      assert NodeOk(arr, ninfo, g, q);
      PrunedNode(arr, ninfo, g, x, ninfo, q);
    }
    hide Mirrored, TreeShaped, Stored, NodeOk, Dropped, IndexOf;
  }

  lemma OnlyChildNotRoot(g: Layout, x: Path)
    requires TreeShaped(g.at.Keys, g.kids) && Bare(g, x) && |g.kids[x.up]| == 1
    ensures x.up.Edge?
    ensures Bare(Pruned(g, x), x.up)
  {
    var p := x.up;
    assert Edge(Root, 0) !in g.at.Keys;
    assert g.kids[p] == [x.via];
    assert Dropped(g.kids[p], x.via) == [];
    assert p.up != p && p.up != x;
    hide Dropped, GoodKids, IndexOf;
  }
}
