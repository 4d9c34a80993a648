/** Following an edge, and adding it when it is missing. */
module Growth {
  import opened Slots
  import opened Cells
  import opened Rings
  import opened Lists
  import opened Allocator
  import opened Layouts
  import opened Relocation
  import opened Dictionary

  /** What the slot below `p` under `l` tells about that edge. */
  lemma EdgeCases(arr: seq<Node>, ninfo: seq<NInfo>, g: Layout, p: Path, l: byte)
    requires TreeOk(arr, ninfo, g, 0, {}) && Blank(arr, ninfo) && |arr| % 256 == 0
    requires p in g.kids && p in g.at && (p.Root? ==> l != 0)
    ensures |ninfo| == |arr| && 0 <= g.at[p] < |arr| && InUse(arr, g.at[p])
    ensures arr[g.at[p]].base < 0 <==> g.kids[p] == []
    ensures arr[g.at[p]].base < 0 ==> Edge(p, l) !in g.at
    ensures arr[g.at[p]].base >= 0 ==>
              var c := Child(arr[g.at[p]].base, l);
              && 0 < c < |arr|
              && (Edge(p, l) in g.at <==> arr[c].check == g.at[p])
              && (Edge(p, l) in g.at ==> g.at[Edge(p, l)] == c)
  {
    assert NodeOk(arr, ninfo, g, p);
    OwnedInUse(arr, g, 0);
    assert g.at[p] in g.owner;
    if Edge(p, l) in g.at {
      EdgePlaced(arr, ninfo, g, p, l);
    }
    if arr[g.at[p]].base >= 0 {
      KidRange(arr, ninfo, g, p, l);
      if arr[Child(arr[g.at[p]].base, l)].check == g.at[p] {
        EdgeFound(arr, ninfo, g, p, l);
      }
    }
    hide Child, KidOk, NodesOk, Mirrored;
  }

  lemma KidRange(arr: seq<Node>, ninfo: seq<NInfo>, g: Layout, p: Path, l: byte)
    requires NodeOk(arr, ninfo, g, p) && arr[g.at[p]].base >= 0 && (p.Root? ==> l != 0)
    requires |arr| % 256 == 0
    ensures 0 < Child(arr[g.at[p]].base, l) < |arr|
  {
    var base := arr[g.at[p]].base;
    var c := Child(base, l);
    if p.Root? {
      XorCommutes(0, l);
      assert c == l;
    }
    hide Child, KidOk;
    assert Block(c) == Block(base);
  }

  /** A slot below `p` whose `check` is the slot of `p` holds the child of `p` under that label. */
  lemma EdgeFound(arr: seq<Node>, ninfo: seq<NInfo>, g: Layout, p: Path, l: byte)
    requires TreeOk(arr, ninfo, g, 0, {}) && p in g.kids && p in g.at && |ninfo| == |arr|
    requires 0 <= g.at[p] < |arr| && arr[g.at[p]].base >= 0
    requires 0 < Child(arr[g.at[p]].base, l) < |arr| && arr[Child(arr[g.at[p]].base, l)].check == g.at[p]
    ensures Edge(p, l) in g.at && g.at[Edge(p, l)] == Child(arr[g.at[p]].base, l)
  {
    var base := arr[g.at[p]].base;
    var c := Child(base, l);
    assert g.at[p] in g.owner;
    assert InUse(arr, c) && c in g.owner;
    var q := g.owner[c];
    assert q.up == p && q == Edge(p, q.via);
    EdgePlaced(arr, ninfo, g, p, q.via);
    ChildInjective(base, l, q.via);
    hide Child, NodesOk, TreeShaped;
  }

  /** The array after a free slot became the child of `p` under `l`. */
  ghost predicate EdgePopped(arr: seq<Node>, ninfo: seq<NInfo>, g: Layout, p: Path, l: byte, c: int,
                             arr1: seq<Node>, ninfo1: seq<NInfo>)
    requires p in g.at
  {
    && 0 <= g.at[p] < |arr|
    && Took(arr, arr1, c) && Grown(ninfo, ninfo1) && Blank(arr1, ninfo1) && ninfo1[c] == NO_INFO
    && arr1[c] == Node(if l != 0 then -1 else 0, g.at[p])
    && if arr[g.at[p]].base >= 0 then c == Child(arr[g.at[p]].base, l) && SameExcept(arr, arr1, -1)
       else && Block(c) >= 1 && SameExcept(arr, arr1, g.at[p])
            && arr1[g.at[p]] == arr[g.at[p]].(base := Child(c, l))
  }

  lemma EdgeAdded(arr: seq<Node>, ninfo: seq<NInfo>, g: Layout, p: Path, l: byte, c: nat,
                  arr1: seq<Node>, ninfo1: seq<NInfo>, ninfo2: seq<NInfo>)
    requires TreeOk(arr, ninfo, g, 0, {}) && Blank(arr, ninfo) && |arr1| % 256 == 0
    requires p in g.kids && p in g.at && (p.Root? ==> l != 0) && Edge(p, l) !in g.at
    requires EdgePopped(arr, ninfo, g, p, l, c, arr1, ninfo1)
    requires arr[g.at[p]].base < 0 <==> g.kids[p] == []
    requires 0 <= g.at[p] < |ninfo1| && Child(Child(c, l), l) < |ninfo1| && Child(Child(c, l), 0) < |ninfo1|
    requires ninfo2 == WithSibling(ninfo1, g.at[p], Child(c, l), l, arr[g.at[p]].base >= 0 && ninfo1[g.at[p]].child == 0)
    ensures TreeOk(arr1, ninfo2, Grafted(g, p, l, c), 0, {})
    ensures Blank(arr1, ninfo2)
    ensures CarriesAndAdds(arr, g, arr1, Grafted(g, p, l, c), p, l)
  {
    OwnedInUse(arr, g, 0);
    ChildCancels(c, l);
    assert c !in g.owner && MayGraft(g, p, l, c);
    assert NodeOk(arr, ninfo, g, p) && GoodKids(g.kids[p]);
    EdgeLinked(arr, ninfo, g, p, l, c, arr1, ninfo1, ninfo2);
    hide TreeShaped, Child, MayGraft, LeafAdded, SiblingLinked, BaseSettled, NodeOk, GoodKids, GraftedKids, Took,
         Grown, WithSibling, EdgePopped, CarriesAndAdds;
    GraftedTree(arr, ninfo, g, 0, {}, p, l, c, arr1, ninfo2);
    GraftedParent(arr, ninfo, g, 0, p, l, c, arr1, ninfo2);
    GraftCarries(arr, g, 0, p, l, c, arr1);
    assert {} + {p} == {p};
    hide Mirrored, Stored;
  }

  lemma EdgeLinked(arr: seq<Node>, ninfo: seq<NInfo>, g: Layout, p: Path, l: byte, c: nat,
                   arr1: seq<Node>, ninfo1: seq<NInfo>, ninfo2: seq<NInfo>)
    requires Mirrored(g) && Stored(arr, g, 0) && NodeOk(arr, ninfo, g, p) && GoodKids(g.kids[p])
    requires Blank(arr, ninfo) && |arr1| % 256 == 0
    requires p in g.at && MayGraft(g, p, l, c) && EdgePopped(arr, ninfo, g, p, l, c, arr1, ninfo1)
    requires arr[g.at[p]].base < 0 <==> g.kids[p] == []
    requires Child(Child(c, l), l) == c && c < |ninfo1| && Child(Child(c, l), 0) < |ninfo1| && g.at[p] < |ninfo1|
    requires ninfo2 == WithSibling(ninfo1, g.at[p], Child(c, l), l, arr[g.at[p]].base >= 0 && ninfo1[g.at[p]].child == 0)
    ensures LeafAdded(arr, ninfo, g, p, l, c, arr1, ninfo2)
    ensures SiblingLinked(ninfo, g, p, l, c, ninfo2)
    ensures BaseSettled(arr, g, p, l, c, arr1)
    ensures Blank(arr1, ninfo2)
    ensures forall s :: s in g.owner && 0 <= s < |arr| && s != g.at[p] ==> arr1[s].base == arr[s].base
  {
    OwnedInUse(arr, g, 0);
    var base := Child(c, l);
    BaseOfNew(arr, g, p, l, c, arr1, ninfo1, ninfo);
    assert forall s :: s in g.owner && 0 <= s < |ninfo| ==> ninfo1[s] == ninfo[s];
    SiblingPushed(arr, ninfo, g, 0, p, l, base, ninfo1);
    LeafLinked(arr, ninfo, g, p, l, c, arr1, ninfo1, ninfo2);
    hide NodeOk, Child, Mirrored, Stored, GoodKids, WithSibling, SiblingLinked, LeafAdded, MayGraft;
  }

  lemma BaseOfNew(arr: seq<Node>, g: Layout, p: Path, l: byte, c: nat, arr1: seq<Node>, ninfo1: seq<NInfo>, ninfo: seq<NInfo>)
    requires NodeOk(arr, ninfo, g, p) && |arr1| % 256 == 0
    requires EdgePopped(arr, ninfo, g, p, l, c, arr1, ninfo1)
    requires arr[g.at[p]].base < 0 <==> g.kids[p] == []
    requires Child(Child(c, l), l) == c && InUse(arr, g.at[p])
    ensures BaseSettled(arr, g, p, l, c, arr1)
    ensures arr1[g.at[p]].base == Child(c, l) && arr1[g.at[p]].check == arr[g.at[p]].check
    ensures arr[g.at[p]].base >= 0 ==> arr1[g.at[p]].base == arr[g.at[p]].base
  {
    if arr[g.at[p]].base >= 0 {
      ChildCancels(arr[g.at[p]].base, l);
    }
    hide Child, KidOk;
    assert Block(Child(c, l)) == Block(c);
  }

  lemma LeafLinked(arr: seq<Node>, ninfo: seq<NInfo>, g: Layout, p: Path, l: byte, c: nat,
                   arr1: seq<Node>, ninfo1: seq<NInfo>, ninfo2: seq<NInfo>)
    requires Mirrored(g) && Stored(arr, g, 0) && p in g.at && c !in g.owner && Blank(arr, ninfo)
    requires EdgePopped(arr, ninfo, g, p, l, c, arr1, ninfo1)
    requires arr1[g.at[p]].check == arr[g.at[p]].check
    requires |ninfo2| == |ninfo1| && ninfo2[c].child == ninfo1[c].child
    requires forall s :: 0 <= s < |ninfo1| && s != c ==>
               && (s != g.at[p] ==> ninfo2[s].child == ninfo1[s].child)
               && (s in g.owner && !OnChain(g, p, s) ==> ninfo2[s].sibling == ninfo1[s].sibling)
    requires forall s :: 0 <= s < |ninfo1| && s != c && s !in g.owner ==> ninfo2[s] == ninfo1[s]
    ensures LeafAdded(arr, ninfo, g, p, l, c, arr1, ninfo2)
    ensures Blank(arr1, ninfo2)
  {
    OwnedInUse(arr, g, 0);
    hide Mirrored;
  }

  lemma CheckedInUse(arr: seq<Node>, s: int)
    requires 0 <= s < |arr| && arr[s].check >= 0
    ensures InUse(arr, s)
  {
  }

  lemma BeforeLink(arr: seq<Node>, ninfo: seq<NInfo>, g: Layout, p: Path, l: byte, c: int,
                   arr1: seq<Node>, ninfo1: seq<NInfo>)
    requires p in g.at && 0 <= g.at[p] < |arr| && Blank(arr1, ninfo1) && |arr1| % 256 == 0
    requires Took(arr, arr1, c) && |ninfo| == |arr| && Grown(ninfo, ninfo1)
    ensures 0 < c < |ninfo1| == |arr1| && 0 <= g.at[p] < |ninfo1| && ninfo1[g.at[p]] == ninfo[g.at[p]]
    ensures Child(Child(c, l), l) == c && Child(Child(c, l), 0) < |ninfo1|
  {
    ChildCancels(c, l);
    ChildZero(Child(c, l));
    hide Child;
    assert Block(Child(c, l)) == Block(c);
  }

  // ------------------------------------------------------------------ the empty trie

  ghost predicate InitialSlots(arr: seq<Node>) {
    && |arr| == 256 && arr[0] == Node(0, -1)
    && forall s :: 1 <= s < 256 ==> arr[s] == Node(if s == 1 then -255 else -(s - 1), if s == 255 then -1 else -(s + 1))
  }

  lemma InitialRings(arr: seq<Node>, blocks: seq<BlockInfo>)
    requires InitialSlots(arr) && |blocks| == 1 && blocks[0].num == 256 && blocks[0].ehead == 1
    ensures RingsOk(arr, blocks, [Run(1, 255)])
  {
    RunIsRing(arr, 0, 1, 255);
  }

  lemma InitialLists(blocks: seq<BlockInfo>, lists: map<Kind, seq<int>>)
    requires |blocks| == 1 && blocks[0].prev == blocks[0].next == 0 && blocks[0].trial == 0
    requires lists == map[Full := [0], Closed := [], Open := []]
    ensures ListsOk(blocks, lists) && HeadsOk(lists, 0, 0, 0)
  {
    assert forall b :: b in [0] <==> b == 0;
    forall k: Kind
      ensures k in lists
    {
      assert k == Full || k == Closed || k == Open;
    }
  }

  lemma InitialTree(arr: seq<Node>, ninfo: seq<NInfo>, g: Layout)
    requires InitialSlots(arr) && |ninfo| == 256 && forall s :: 0 <= s < 256 ==> ninfo[s] == NO_INFO
    requires g == Layout(map[Root := 0], map[0 := Root], map[Root := [0]])
    ensures TreeOk(arr, ninfo, g, 0, {}) && Blank(arr, ninfo)
    ensures Represents(arr, g, map[]) && Fruitful(g, Root)
  {
    assert NodeOk(arr, ninfo, g, Root) by {
      ChildZero(0);
      assert KidOk(ninfo, g, Root, 0, [0], 0);
    }
    assert GoodKids([0]);
    assert forall k :: Terminal(k) != Root;
  }
}
