/** Erasing an entry: its terminal goes, and every place above it that is left without a child. */
module Erasure {
  import opened Slots
  import opened Cells
  import opened Rings
  import opened Allocator
  import opened Layouts
  import opened Relocation
  import opened Dictionary
  import opened Enumeration
  import opened Lookups
  import opened Pruning

  /** Some key starts with the byte `l`. */
  ghost predicate StartsWith(dict: map<Key, int>, l: byte) {
    exists k :: k in dict && [l] <= k
  }

  /** Erasing `key` works: it is absent, or some byte starts no key, or another key starts with the same byte. */
  ghost predicate Erasable(dict: map<Key, int>, key: Key) {
    key in dict && key != [] ==>
      (exists l: byte :: l != 0 && !StartsWith(dict, l)) || StartsWith(dict - {key}, key[0])
  }

  /** The tree holds the entries of `dict` and, apart from them, at most the terminal `x`. */
  ghost predicate RepresentsBut(arr: seq<Node>, g: Layout, dict: map<Key, int>, x: Path) {
    && (forall k :: k in dict <==> Terminal(k) in g.at && Terminal(k) != x)
    && (forall k :: k in dict ==>
          && 0 <= g.at[Terminal(k)] < |arr|
          && arr[g.at[Terminal(k)]].base == dict[k]
          && 1 <= dict[k] <= MAX_VALUE)
  }

  /** The leaf `x` is about to be taken off the tree. */
  ghost predicate Doomed(arr: seq<Node>, ninfo: seq<NInfo>, g: Layout, dict: map<Key, int>, x: Path) {
    TreeOk(arr, ninfo, g, 0, {x}) && Bare(g, x) && Fruitful(g, x) && RepresentsBut(arr, g, dict, x)
  }

  /** The tree holds the entries of `dict`, and every place leads to one. */
  ghost predicate Cleared(arr: seq<Node>, ninfo: seq<NInfo>, g: Layout, dict: map<Key, int>) {
    TreeOk(arr, ninfo, g, 0, {}) && Represents(arr, g, dict) && Fruitful(g, Root)
  }

  /** Erasure begins with the terminal of the key. */
  lemma TerminalDoomed(arr: seq<Node>, ninfo: seq<NInfo>, g: Layout, dict: map<Key, int>, key: Key)
    requires TreeOk(arr, ninfo, g, 0, {}) && Represents(arr, g, dict) && Fruitful(g, Root) && key in dict
    ensures Doomed(arr, ninfo, g, dict - {key}, Terminal(key))
    ensures key != [] && Beneath(Edge(Root, key[0]), Terminal(key))
  {
    var x := Terminal(key);
    assert x in g.at && Edge(Root, 0) !in g.at;
    TerminalBare(g, x);
    WithoutEntry(arr, g, dict, key);
    BelowFirst(key);
    hide PathOf, TreeShaped, NodeOk, Stored, Mirrored, Represents, RepresentsBut, Beneath;
  }

  lemma DoomedFacts(arr: seq<Node>, ninfo: seq<NInfo>, g: Layout, dict: map<Key, int>, x: Path)
    requires Doomed(arr, ninfo, g, dict, x)
    ensures TreeOk(arr, ninfo, g, 0, {x}) && Bare(g, x)
  {
  }

  lemma TerminalBare(g: Layout, x: Path)
    requires TreeShaped(g.at.Keys, g.kids) && x in g.at && !Inner(x) && Fruitful(g, Root)
    ensures Bare(g, x) && Fruitful(g, x)
  {
    hide GoodKids;
  }

  lemma WithoutEntry(arr: seq<Node>, g: Layout, dict: map<Key, int>, key: Key)
    requires Represents(arr, g, dict)
    ensures RepresentsBut(arr, g, dict - {key}, Terminal(key))
  {
    forall k
      ensures k in dict - {key} <==> Terminal(k) in g.at && Terminal(k) != Terminal(key)
    {
      TerminalsDiffer(key, k);
      hide PathOf;
    }
    hide PathOf;
  }

  lemma BelowFirst(key: Key)
    ensures Terminal(key) != Edge(Root, 0) ==> key != [] && Beneath(Edge(Root, key[0]), Terminal(key))
  {
    if key != [] {
      assert [key[0]] <= key;
      PrefixBeneath([key[0]], key);
      assert PathOf([key[0]]) == Edge(PathOf([]), key[0]);
    }
  }

  /** What the step that takes off `x` reads. */
  lemma LeafFacts(arr: seq<Node>, ninfo: seq<NInfo>, g: Layout, x: Path)
    requires TreeOk(arr, ninfo, g, 0, {x}) && Bare(g, x)
    ensures 0 <= g.at[x.up] < |arr| == |ninfo| && NodeOk(arr, ninfo, g, x.up) && GoodKids(g.kids[x.up])
    ensures var n, ks := g.at[x.up], g.kids[x.up];
            && arr[n].base >= 0 && ninfo[n].child == ks[0] && ks != []
            && Child(arr[n].base, ks[0]) < |ninfo|
            && (ninfo[Child(arr[n].base, ks[0])].sibling != 0 <==> |ks| >= 2)
            && g.at[x] == Child(arr[n].base, x.via) && 0 < g.at[x] < |arr| && InUse(arr, g.at[x])
            && arr[g.at[x]].check == n && InUse(arr, n)
            && Block(arr[n].base) == Block(g.at[x])
            && (Block(g.at[x]) == 0 <==> x.up.Root?)
            && (n == 0 <==> x.up.Root?)
            && (x.up.Root? ==> |ks| >= 2)
  {
    assert x.up != x && NodeOk(arr, ninfo, g, x.up);
    EdgeSettled(arr, ninfo, g, 0, {x}, x.up, x.via);
    ChainStep(arr, ninfo, g, x.up, 0);
    OwnedInUse(arr, g, 0);
    assert g.at[x] in g.owner && g.at[x.up] in g.owner;
    var base := arr[g.at[x.up]].base;
    assert Block(Child(base, x.via)) == Block(base);
    if x.up.Root? {
      assert x.via != 0 && g.kids[Root][0] == 0;
    }
    hide NodesOk, KidOk, Child, GoodKids, Mirrored;
  }

  /** In block 0 every slot in use, the root's apart, belongs to a child of the root. */
  lemma BlockZeroOwners(arr: seq<Node>, ninfo: seq<NInfo>, g: Layout, ex: set<Path>, s: int)
    requires TreeOk(arr, ninfo, g, 0, ex) && InUse(arr, s) && 0 < s < 256
    requires forall q :: q in ex && q in g.kids ==> g.kids[q] == []
    ensures arr[s].check == 0 && Edge(Root, s) in g.at && g.at[Edge(Root, s)] == s
  {
    var q := g.owner[s];
    assert q.Edge? && q.up in g.kids && q.via in g.kids[q.up] && q in g.at;
    EdgeSettled(arr, ninfo, g, 0, ex, q.up, q.via);
    assert Block(Child(arr[g.at[q.up]].base, q.via)) == Block(arr[g.at[q.up]].base);
    assert q.up.Root?;
    assert Child(0, q.via) == q.via;
    hide NodesOk, Child;
  }

  /** Block 0 is full exactly when every byte starts some key. */
  lemma RootFull(arr: seq<Node>, ninfo: seq<NInfo>, g: Layout, dict: map<Key, int>, blocks: seq<BlockInfo>, rings: seq<seq<int>>)
    requires TreeOk(arr, ninfo, g, 0, {}) && Represents(arr, g, dict) && Fruitful(g, Root) && RingsOk(arr, blocks, rings)
    ensures |rings| > 0 && (rings[0] == [] <==> forall l: byte :: l != 0 ==> StartsWith(dict, l))
  {
    assert RingOf(arr, 0, rings[0]) && |arr| >= 256;
    forall l: byte | l != 0
      ensures StartsWith(dict, l) <==> InUse(arr, l)
    {
      StartsWithSlot(arr, ninfo, g, dict, l);
    }
    hide TreeOk, StartsWith, Represents, Linked, Distinct;
    if rings[0] != [] {
      assert rings[0][0] in rings[0];
      assert Free(arr, rings[0][0]) && Block(rings[0][0]) == 0;
    }
    if l: byte :| l != 0 && !InUse(arr, l) {
      assert Free(arr, l) && Block(l) == 0;
    }
  }

  lemma StartsWithSlot(arr: seq<Node>, ninfo: seq<NInfo>, g: Layout, dict: map<Key, int>, l: byte)
    requires TreeOk(arr, ninfo, g, 0, {}) && Represents(arr, g, dict) && Fruitful(g, Root)
    requires l != 0 && |arr| >= 256
    ensures StartsWith(dict, l) <==> InUse(arr, l)
  {
    PlacesArePrefixes(arr, g, dict, [l]);
    assert PathOf([l]) == Edge(PathOf([]), l);
    if InUse(arr, l) {
      BlockZeroOwners(arr, ninfo, g, {}, l);
    }
    if Edge(Root, l) in g.at {
      EdgeSettled(arr, ninfo, g, 0, {}, Root, l);
      OwnedInUse(arr, g, 0);
      assert Child(0, l) == l;
      assert g.at[Edge(Root, l)] in g.owner;
    }
    hide NodesOk, Represents, Child;
  }

  /** Cutting a leaf out of its chain changes the side table for slots in use only. */
  lemma CutBlank(arr: seq<Node>, ninfo: seq<NInfo>, g: Layout, x: Path, ninfo': seq<NInfo>)
    requires Blank(arr, ninfo) && Bare(g, x) && Mirrored(g) && Stored(arr, g, 0)
    requires NodeOk(arr, ninfo, g, x.up) && arr[g.at[x.up]].base >= 0
    requires ChainCut(ninfo, g, x, arr[g.at[x.up]].base, IndexOf(g.kids[x.up], x.via), ninfo')
    ensures Blank(arr, ninfo')
  {
    var k := IndexOf(g.kids[x.up], x.via);
    OwnedInUse(arr, g, 0);
    assert g.at[x.up] in g.owner;
    if k > 0 {
      assert KidOk(ninfo, g, x.up, arr[g.at[x.up]].base, g.kids[x.up], k - 1);
      hide Child, IndexOf;
      assert SlotOf(g, x.up, g.kids[x.up][k - 1]) in g.owner;
    }
  }

  /** The entries once `x` is off the tree and its slot is empty. */
  lemma PrunedEntries(arr: seq<Node>, g: Layout, dict: map<Key, int>, x: Path, arr': seq<Node>)
    requires Mirrored(g) && Stored(arr, g, 0) && Bare(g, x) && RepresentsBut(arr, g, dict, x)
    requires Freed(arr, arr', g.at[x])
    ensures Represents(arr', Pruned(g, x), dict)
  {
    OwnedInUse(arr, g, 0);
    hide PathOf, Dropped, Stored;
    forall k | k in dict
      ensures arr'[g.at[Terminal(k)]] == arr[g.at[Terminal(k)]]
    {
      assert g.at[Terminal(k)] in g.owner;
    }
  }

  lemma PrunedFruitful(g: Layout, x: Path)
    requires Bare(g, x) && Fruitful(g, x) && x.up != x
    ensures if |g.kids[x.up]| >= 2 then Fruitful(Pruned(g, x), Root) else Fruitful(Pruned(g, x), x.up)
  {
    assert |Dropped(g.kids[x.up], x.via)| == |g.kids[x.up]| - 1;
    hide Dropped;
  }

  /** The tree without the leaf `x`; the parent of `x` is the next to go if that was its only child. */
  ghost predicate Shed(arr: seq<Node>, ninfo: seq<NInfo>, g: Layout, dict: map<Key, int>, x: Path)
    requires Bare(g, x)
  {
    if |g.kids[x.up]| >= 2 then Cleared(arr, ninfo, Pruned(g, x), dict)
    else Doomed(arr, ninfo, Pruned(g, x), dict, x.up)
  }

  /** One step of the erasure, once the slot of `x` is empty. */
  lemma LeafTakenOff(arr: seq<Node>, ninfo: seq<NInfo>, g: Layout, dict: map<Key, int>, x: Path,
                     ninfo1: seq<NInfo>, arr': seq<Node>, ninfo': seq<NInfo>)
    requires Doomed(arr, ninfo, g, dict, x) && |ninfo1| == |arr| && Freed(arr, arr', g.at[x])
    requires 0 <= g.at[x] < |ninfo1| && ninfo' == ninfo1[g.at[x] := NO_INFO]
    requires if |g.kids[x.up]| >= 2 then TreeOk(arr, ninfo1, Pruned(g, x), g.at[x], {}) else ninfo1 == ninfo
    ensures Shed(arr', ninfo', g, dict, x) && |arr'| == |arr|
  {
    assert |arr'| == |arr|;
    PrunedEntries(arr, g, dict, x, arr');
    PrunedFruitful(g, x);
    assert g.at[x] !in Pruned(g, x).owner;
    var g', a := Pruned(g, x), g.at[x];
    if |g.kids[x.up]| >= 2 {
      SlotEmptied(arr, ninfo1, g', a, {}, arr', ninfo');
    } else {
      OnlyChildTree(arr, ninfo, g, x);
      SlotEmptied(arr, ninfo1, g', a, {x.up}, arr', ninfo');
      StillRepresents(arr', g', dict, x.up);
    }
    hide Dropped, Freed, Represents, Fruitful, RepresentsBut, Bare, TreeOk;
  }

  lemma StillRepresents(arr: seq<Node>, g: Layout, dict: map<Key, int>, x: Path)
    requires Represents(arr, g, dict) && Bare(g, x) && x in g.kids && Mirrored(g) && TreeShaped(g.at.Keys, g.kids)
    ensures RepresentsBut(arr, g, dict, x)
  {
    hide PathOf;
    assert forall k :: Terminal(k) != x;
  }

  lemma SlotEmptied(arr: seq<Node>, ninfo: seq<NInfo>, g: Layout, a: int, ex: set<Path>, arr': seq<Node>, ninfo': seq<NInfo>)
    requires TreeOk(arr, ninfo, g, a, ex) && a !in g.owner && Freed(arr, arr', a)
    requires |ninfo| == |arr| && 0 <= a < |ninfo| && ninfo' == ninfo[a := NO_INFO]
    ensures TreeOk(arr', ninfo', g, 0, ex)
  {
    OwnedInUse(arr, g, a);
    assert forall s :: s in g.owner ==> InUse(arr, s) && s != a && InUse(arr', s);
    TreeElsewhere(arr, ninfo, g, a, ex, arr', ninfo', 0);
    hide TreeOk;
  }

  /** The erasure reaches a child of the root exactly when no other key starts with the same byte. */
  lemma ReachedRoot(arr: seq<Node>, ninfo: seq<NInfo>, g: Layout, dict: map<Key, int>, x: Path, l: byte)
    requires Doomed(arr, ninfo, g, dict, x) && |g.kids[x.up]| >= 2 && Beneath(Edge(Root, l), x) && l != 0
    ensures x.up.Root? <==> !StartsWith(dict, l)
  {
    var g' := Pruned(g, x);
    PrunedShape(g, x);
    PrunedFruitful(g, x);
    PlacesFor(g', dict, [l], g, x);
    assert PathOf([l]) == Edge(PathOf([]), l);
    if x.up.Root? {
      assert x == Edge(Root, l);
    } else {
      assert x != Edge(Root, l);
      assert x.up in g'.kids;
      AboveInTree(g', Edge(Root, l), x.up);
    }
    hide TreeShaped, NodesOk, Dropped, RepresentsBut;
  }

  lemma PlacesFor(g': Layout, dict: map<Key, int>, s: Key, g: Layout, x: Path)
    requires Bare(g, x) && g' == Pruned(g, x) && TreeShaped(g'.at.Keys, g'.kids) && Fruitful(g', Root)
    requires forall k :: k in dict <==> Terminal(k) in g.at && Terminal(k) != x
    ensures PathOf(s) in g'.kids <==> s == [] || exists k :: k in dict && s <= k
  {
    assert forall k :: k in dict <==> Terminal(k) in g'.at;
    hide Dropped, PathOf, Pruned;
    PlacesOfKeys(g', dict, s);
  }

  lemma StaleHeadTaken(arr: seq<Node>, ninfo: seq<NInfo>, g: Layout, x: Path, blocks: seq<BlockInfo>, rings: seq<seq<int>>)
    requires TreeOk(arr, ninfo, g, 0, {x}) && Bare(g, x) && RingsOk(arr, blocks, rings)
    ensures |rings| > 0 && |blocks| > 0 && |arr| > 0
    ensures rings[0] == [] ==> 0 < blocks[0].ehead < |arr| && arr[blocks[0].ehead].check == 0
  {
    StaleHead(arr, blocks, rings);
    if rings[0] == [] {
      assert RingOf(arr, 0, rings[0]);
      assert InUse(arr, blocks[0].ehead);
      BlockZeroOwners(arr, ninfo, g, {x}, blocks[0].ehead);
    }
    hide TreeOk;
  }

  lemma ChainCutKeeps(arr: seq<Node>, ninfo: seq<NInfo>, g: Layout, dict: map<Key, int>, x: Path, ninfo': seq<NInfo>)
    requires Doomed(arr, ninfo, g, dict, x) && Blank(arr, ninfo) && |g.kids[x.up]| >= 2
    requires x.up in g.at && 0 <= g.at[x.up] < |arr| && arr[g.at[x.up]].base >= 0 && NodeOk(arr, ninfo, g, x.up)
    requires ChainCut(ninfo, g, x, arr[g.at[x.up]].base, IndexOf(g.kids[x.up], x.via), ninfo')
    ensures Blank(arr, ninfo') && |ninfo'| == |ninfo| && Bare(g, x)
    ensures TreeOk(arr, ninfo', Pruned(g, x), g.at[x], {})
  {
    CutTree(arr, ninfo, g, x, ninfo');
    CutBlank(arr, ninfo, g, x, ninfo');
    hide ChainCut, NodeOk, TreeShaped, NodesOk, IndexOf, Child;
  }

  /** Freeing a slot of block 0 when the block is full overwrites the base of the root. */
  lemma RootSpoilt(arr: seq<Node>, e: int, prev: int)
    requires 0 < e < |arr| && 0 < prev < |arr|
    ensures |Spliced(arr, e, prev, 0)| == |arr| && Spliced(arr, e, prev, 0)[0].base == -e
  {
  }

  /** The state of the erasure of `key` before it takes off `x`, whose slot is `e` and whose parent is at `from`. */
  ghost predicate Erasing(arr: seq<Node>, ninfo: seq<NInfo>, g: Layout, dict: map<Key, int>, x: Path,
                          from: int, e: int, key: Key)
  {
    && Doomed(arr, ninfo, g, dict, x)
    && from == g.at[x.up] && e == g.at[x]
    && key != [] && key[0] != 0 && Beneath(Edge(Root, key[0]), x)
  }

  lemma ErasureStarts(arr: seq<Node>, ninfo: seq<NInfo>, g: Layout, dict: map<Key, int>,
                      blocks: seq<BlockInfo>, rings: seq<seq<int>>, key: Key)
    requires TreeOk(arr, ninfo, g, 0, {}) && Represents(arr, g, dict) && Fruitful(g, Root) && RingsOk(arr, blocks, rings)
    requires key in dict && PathOf(key) in g.at
    ensures 0 <= g.at[PathOf(key)] < |arr| && arr[g.at[PathOf(key)]].base >= 0
    ensures Erasing(arr, ninfo, g, dict - {key}, Terminal(key), g.at[PathOf(key)], Child(arr[g.at[PathOf(key)]].base, 0), key)
    ensures |rings| > 0 && key != []
    ensures Erasable(dict, key) <==> !(rings[0] == [] && !StartsWith(dict - {key}, key[0]))
  {
    TerminalDoomed(arr, ninfo, g, dict, key);
    RootFull(arr, ninfo, g, dict, blocks, rings);
    LeafFacts(arr, ninfo, g, Terminal(key));
    assert key[0] != 0 by {
      AboveInTree(g, Edge(Root, key[0]), PathOf(key));
    }
    hide TreeOk, RingsOk, Represents, StartsWith, Child, PathOf, Beneath, NodeOk, Bare;
  }

  lemma ErasingFacts(arr: seq<Node>, ninfo: seq<NInfo>, g: Layout, dict: map<Key, int>, x: Path,
                     from: int, e: int, key: Key)
    requires Erasing(arr, ninfo, g, dict, x, from, e, key)
    ensures Doomed(arr, ninfo, g, dict, x) && Bare(g, x) && x.Edge? && x in g.at && x.up in g.at && x.up in g.kids
    ensures from == g.at[x.up] && e == g.at[x] && 0 <= from < |arr|
    ensures key != [] && key[0] != 0 && Beneath(Edge(Root, key[0]), x)
    ensures (|g.kids[x.up]| >= 2 ==> (x.up.Root? <==> !StartsWith(dict, key[0])))
    ensures Depth(x) == 1 + Depth(x.up)
  {
    LeafFacts(arr, ninfo, g, x);
    if |g.kids[x.up]| >= 2 {
      ReachedRoot(arr, ninfo, g, dict, x, key[0]);
    }
    hide TreeOk, RepresentsBut, Fruitful, NodeOk, StartsWith, Beneath;
  }

  lemma ErasingOn(g: Layout, arr': seq<Node>, ninfo': seq<NInfo>, dict: map<Key, int>, x: Path, from: int, key: Key)
    requires Bare(g, x) && Shed(arr', ninfo', g, dict, x) && from == g.at[x.up] && 0 <= from < |arr'|
    requires key != [] && key[0] != 0 && Beneath(Edge(Root, key[0]), x)
    ensures if |g.kids[x.up]| >= 2 then Cleared(arr', ninfo', Pruned(g, x), dict)
            else Erasing(arr', ninfo', Pruned(g, x), dict, x.up, arr'[from].check, from, key)
  {
    if |g.kids[x.up]| < 2 {
      LeafFacts(arr', ninfo', Pruned(g, x), x.up);
      assert x.up.Edge?;
    }
    hide TreeOk, RepresentsBut, Fruitful, NodeOk, Dropped;
  }

  lemma NotErasable(dict: map<Key, int>, key: Key)
    ensures key !in dict ==> Erasable(dict, key) && dict - {key} == dict
  {
  }

  // ------------------------------------------------------------------ an erasure that fails

  /** The one-byte keys 1 to `n`, each with its byte as its value. */
  function Singles(n: nat): map<Key, int>
    requires n < 256
  {
    if n == 0 then map[] else Singles(n - 1)[[n] := n]
  }

  lemma {:induction false} SinglesAre(n: nat, k: Key)
    requires n < 256
    ensures k in Singles(n) <==> exists l: byte :: 1 <= l <= n && k == [l]
  {
    if n > 0 {
      SinglesAre(n - 1, k);
      if k == [n] {
        var l: byte := n;
        assert k == [l];
      }
    }
  }

  lemma NoSingles()
    ensures Singles(0) == map[]
  {
  }

  lemma OneMoreSingle(n: nat)
    requires 1 <= n < 256
    ensures Singles(n) == Merged(Singles(n - 1), [n], n) && [n] !in Singles(n - 1)
    ensures ZeroFree([n]) && n <= MAX_VALUE
  {
    SinglesAre(n - 1, [n]);
  }

  /** With all 255 one-byte keys stored, none of them can be erased. */
  lemma SinglesFillRoot()
    ensures [1] in Singles(255) && Readable(Singles(255), [1]) && !Erasable(Singles(255), [1])
  {
    hide Singles;
    var one: byte := 1;
    SinglesAre(255, [one]);
    assert [1] == [one];
    forall l: byte | l != 0
      ensures StartsWith(Singles(255), l)
    {
      SinglesAre(255, [l]);
      assert [l] <= [l];
    }
    forall k | k in Singles(255) - {[1]}
      ensures !([1] <= k)
    {
      SinglesAre(255, k);
      assert |k| == 1 && k == [k[0]];
    }
  }
}
