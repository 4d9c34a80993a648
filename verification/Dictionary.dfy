/** The dictionary a tree represents. */
module Dictionary {
  import opened Slots
  import opened Cells
  import opened Allocator
  import opened Layouts
  import opened Relocation

  type Key = seq<byte>

  /** Label 0 marks the terminals, so keys must not contain it. */
  predicate ZeroFree(k: Key) {
    forall i :: 0 <= i < |k| ==> k[i] != 0
  }

  /** A text that may be looked up: no zero byte in it comes right after a stored key, where it would lead to the
      slot of the key's value. */
  ghost predicate Readable(dict: map<Key, int>, s: Key) {
    forall i :: 0 <= i < |s| && s[i] == 0 ==> s[..i] !in dict
  }

  lemma ZeroFreeReadable(dict: map<Key, int>, s: Key)
    ensures ZeroFree(s) ==> Readable(dict, s)
  {
  }

  function Text(p: Path): Key {
    match p
    case Root => []
    case Edge(up, via) => Text(up) + [via]
  }

  function PathOf(k: Key): (p: Path)
    ensures Text(p) == k
  {
    if k == [] then Root else Edge(PathOf(k[..|k| - 1]), k[|k| - 1])
  }

  lemma {:induction false} PathOfText(p: Path)
    ensures PathOf(Text(p)) == p
  {
    if p.Edge? {
      PathOfText(p.up);
      assert Text(p)[..|Text(p)| - 1] == Text(p.up);
    }
  }

  /** The place of the value stored for `k`. */
  function Terminal(k: Key): Path {
    Edge(PathOf(k), 0)
  }

  const MAX_VALUE := 0x7ffffffc

  /** The tree stores exactly the entries of `dict`. */
  ghost predicate Represents(arr: seq<Node>, g: Layout, dict: map<Key, int>) {
    && (forall k :: k in dict <==> Terminal(k) in g.at)
    && (forall k :: k in dict ==>
          && 0 <= g.at[Terminal(k)] < |arr|
          && arr[g.at[Terminal(k)]].base == dict[k]
          && 1 <= dict[k] <= MAX_VALUE)
  }

  /** Every inner place but `p` has a child. */
  ghost predicate Fruitful(g: Layout, ex: Path) {
    forall p :: p in g.kids && g.kids[p] == [] ==> p == ex
  }

  /** A relocation or a new inner place changes no entry. */
  lemma SameEntries(arr: seq<Node>, g: Layout, arr': seq<Node>, g': Layout, dict: map<Key, int>)
    requires Represents(arr, g, dict)
    requires SameValues(arr, g, arr', g')
    requires forall k :: Terminal(k) in g'.at ==> Terminal(k) in g.at
    ensures Represents(arr', g', dict)
  {
    forall k | Terminal(k) in g.at
      ensures Terminal(k) in g'.at && 0 <= g'.at[Terminal(k)] < |arr'|
      ensures arr'[g'.at[Terminal(k)]].base == arr[g.at[Terminal(k)]].base
    {
      assert !Inner(Terminal(k));
    }
  }

  lemma NewPlace(arr: seq<Node>, g: Layout, arr': seq<Node>, g': Layout, dict: map<Key, int>, p: Path, l: byte)
    requires Represents(arr, g, dict) && l != 0 && p in g.kids && CarriesAndAdds(arr, g, arr', g', p, l)
    requires Fruitful(g, p)
    ensures Represents(arr', g', dict) && Fruitful(g', Edge(p, l))
  {
    hide PathOf;
    assert forall k :: Terminal(k) in g'.at ==> Terminal(k) in g.at;
    SameEntries(arr, g, arr', g', dict);
    GraftedChild(g.kids[p], l);
    hide InsertKid;
  }

  /** The entries after the terminal of `k` was created and given the value `v`. */
  lemma NewTerminal(arr: seq<Node>, g: Layout, arr': seq<Node>, g': Layout, dict: map<Key, int>, k: Key, v: int)
    requires Represents(arr, g, dict) && 1 <= v <= MAX_VALUE && k !in dict && Mirrored(g')
    requires PathOf(k) in g.kids && CarriesAndAdds(arr, g, arr', g', PathOf(k), 0) && Fruitful(g, PathOf(k))
    ensures var to := g'.at[Terminal(k)];
            && 0 <= to < |arr'| && arr'[to].base == 0
            && Represents(arr'[to := arr'[to].(base := v)], g', dict[k := v])
            && Fruitful(g', Root)
  {
    hide InsertKid;
    var to := g'.at[Terminal(k)];
    var arr2, dict2 := arr'[to := arr'[to].(base := v)], dict[k := v];
    forall m
      ensures m in dict2 <==> Terminal(m) in g'.at
      ensures m in dict2 ==> 0 <= g'.at[Terminal(m)] < |arr2| && arr2[g'.at[Terminal(m)]].base == dict2[m]
    {
      TerminalsDiffer(k, m);
      hide PathOf;
      assert !Inner(Terminal(m));
      if m in dict2 && m != k {
        assert g'.at[Terminal(m)] != to;
      }
    }
    GraftedChild(g.kids[PathOf(k)], 0);
  }

  lemma TerminalsDiffer(k: Key, m: Key)
    ensures Terminal(k) == Terminal(m) <==> k == m
  {
  }

  /** The entries after the existing terminal of `k` was given the smaller value `v`. */
  lemma LoweredTerminal(arr: seq<Node>, g: Layout, dict: map<Key, int>, k: Key, v: int)
    requires Represents(arr, g, dict) && 1 <= v <= MAX_VALUE && k in dict && Mirrored(g)
    ensures var to := g.at[Terminal(k)];
            && 0 <= to < |arr| && arr[to].base == dict[k]
            && Represents(arr[to := arr[to].(base := v)], g, dict[k := v])
  {
    var to := g.at[Terminal(k)];
    forall m | m in dict && m != k
      ensures g.at[Terminal(m)] != to
    {
      TerminalsDiffer(k, m);
      hide PathOf;
    }
  }

  /** The place of a longer prefix is one edge further down. */
  lemma PrefixStep(k: Key, i: nat)
    requires i < |k| && ZeroFree(k)
    ensures PathOf(k[..i + 1]) == Edge(PathOf(k[..i]), k[i]) && k[i] != 0
    ensures i == 0 ==> PathOf(k[..i]) == Root
  {
    assert k[..i + 1][..i] == k[..i];
  }

  lemma WholePrefix(k: Key)
    ensures k[..|k|] == k
    ensures k != [] ==> PathOf(k).Edge?
  {
  }

  lemma RootPlace(arr: seq<Node>, ninfo: seq<NInfo>, g: Layout)
    requires TreeOk(arr, ninfo, g, 0, {})
    ensures PathOf([]) == Root && Root in g.kids && Root in g.at && g.at[Root] == 0
  {
    hide NodesOk;
  }

  /** One step of the descent: the edge `l` below `p` is there now. */
  lemma Descended(arr: seq<Node>, g: Layout, arr': seq<Node>, ninfo': seq<NInfo>, g': Layout, dict: map<Key, int>,
                  p: Path, l: byte)
    requires Represents(arr, g, dict) && Fruitful(g, p) && l != 0
    requires TreeOk(arr', ninfo', g', 0, {}) && Edge(p, l) in g'.at
    requires if Edge(p, l) in g.at then arr' == arr && g' == g
             else p in g.kids && CarriesAndAdds(arr, g, arr', g', p, l)
    ensures Represents(arr', g', dict) && Fruitful(g', Edge(p, l)) && Edge(p, l) in g'.kids
  {
    if Edge(p, l) in g.at {
      assert l in g.kids[p];
    } else {
      NewPlace(arr, g, arr', g', dict, p, l);
    }
    hide Represents, Mirrored, Stored, NodesOk;
  }

  /** Giving a terminal a value keeps the tree. */
  lemma TreeRevalued(arr: seq<Node>, ninfo: seq<NInfo>, g: Layout, p: Path, v: int)
    requires TreeOk(arr, ninfo, g, 0, {}) && p in g.at && !Inner(p) && |ninfo| == |arr|
    ensures 0 < g.at[p] < |arr| && arr[g.at[p]].check >= 0
    ensures TreeOk(arr[g.at[p] := arr[g.at[p]].(base := v)], ninfo, g, 0, {})
  {
    assert g.at[p] in g.owner && g.owner[g.at[p]] == p && g.at[p.up] in g.owner;
    var arr' := arr[g.at[p] := arr[g.at[p]].(base := v)];
    assert Stored(arr', g, 0);
    forall q | q in g.kids
      ensures NodeOk(arr', ninfo, g, q)
    {
      assert NodeOk(arr, ninfo, g, q);
      assert g.at[q] in g.owner && g.owner[g.at[q]] == q && q != p;
      hide KidOk, Mirrored;
    }
    hide Mirrored, Stored, NodeOk;
  }

  /** What storing `v` under `k` finds and leaves once the terminal exists. */
  lemma Reached(arr: seq<Node>, g: Layout, arr': seq<Node>, ninfo': seq<NInfo>, g': Layout,
                dict: map<Key, int>, k: Key, v: int)
    requires Represents(arr, g, dict) && 1 <= v <= MAX_VALUE && k != []
    requires TreeOk(arr', ninfo', g', 0, {}) && Blank(arr', ninfo')
    requires PathOf(k) in g.kids && Fruitful(g, PathOf(k))
    requires Terminal(k) in g'.at
    requires if Terminal(k) in g.at then arr' == arr && g' == g
             else CarriesAndAdds(arr, g, arr', g', PathOf(k), 0)
    ensures var to := g'.at[Terminal(k)];
            var arr2 := arr'[to := arr'[to].(base := v)];
            && 0 < to < |arr'| && arr'[to].check >= 0
            && TreeOk(arr2, ninfo', g', 0, {}) && Blank(arr2, ninfo')
            && Represents(arr2, g', dict[k := v]) && Fruitful(g', Root)
            && (arr'[to].base == 0 <==> k !in dict)
            && (k in dict ==> arr'[to].base == dict[k] && Represents(arr', g', dict))
            && (k in dict ==> dict[k := dict[k]] == dict)
  {
    TreeRevalued(arr', ninfo', g', Terminal(k), v);
    ReachedBlank(arr', ninfo', g'.at[Terminal(k)], v);
    if k in dict {
      LoweredTerminal(arr, g, dict, k, v);
      assert 0 in g.kids[PathOf(k)];
      assert Fruitful(g', Root);
    } else {
      NewTerminal(arr, g, arr', g', dict, k, v);
    }
    hide TreeOk, Blank, PathOf, CarriesAndAdds, Fruitful;
  }

  lemma ReachedBlank(arr: seq<Node>, ninfo: seq<NInfo>, to: int, v: int)
    requires Blank(arr, ninfo) && 0 < to < |arr| && arr[to].check >= 0
    ensures Blank(arr[to := arr[to].(base := v)], ninfo)
  {
  }

  /** A terminal just created has the value 0. */
  lemma FreshTerminal(arr: seq<Node>, g: Layout, arr': seq<Node>, ninfo': seq<NInfo>, g': Layout, dict: map<Key, int>, k: Key)
    requires Represents(arr, g, dict) && k !in dict && PathOf(k) in g.kids
    requires TreeOk(arr', ninfo', g', 0, {}) && Blank(arr', ninfo')
    requires Terminal(k) in g.at || CarriesAndAdds(arr, g, arr', g', PathOf(k), 0)
    ensures Terminal(k) !in g.at && Terminal(k) in g'.at && 0 <= g'.at[Terminal(k)] < |arr'| == |ninfo'|
    ensures arr'[g'.at[Terminal(k)]].base == 0 && |arr'| > 0 && arr'[0] == Node(0, -1) && g'.at[Terminal(k)] != 0
  {
    hide PathOf, GraftedKids, KidOk;
    assert Terminal(k) in g.at <==> k in dict;
    assert NodeOk(arr', ninfo', g', Root);
  }

  // ------------------------------------------------------------------ runs of updates

  /** The entries after one update: the smaller value stays. */
  function Merged(dict: map<Key, int>, key: Key, val: int): map<Key, int> {
    dict[key := if key in dict && dict[key] <= val then dict[key] else val]
  }

  /** The entries after the first `n` updates of a run. */
  function MergedAll(dict: map<Key, int>, keys: seq<Key>, vals: seq<int>, n: nat): map<Key, int>
    requires n <= |keys| == |vals|
  {
    if n == 0 then dict else Merged(MergedAll(dict, keys, vals, n - 1), keys[n - 1], vals[n - 1])
  }

  lemma NoneMerged(dict: map<Key, int>, keys: seq<Key>, vals: seq<int>)
    requires |keys| == |vals|
    ensures MergedAll(dict, keys, vals, 0) == dict
  {
  }

  lemma OneMoreMerged(dict: map<Key, int>, keys: seq<Key>, vals: seq<int>, n: nat)
    requires n < |keys| == |vals|
    ensures MergedAll(dict, keys, vals, n + 1) == Merged(MergedAll(dict, keys, vals, n), keys[n], vals[n])
  {
  }

  /** `v` was stored under `k` at the start or by one of the first `n` updates. */
  ghost predicate Supplied(dict: map<Key, int>, keys: seq<Key>, vals: seq<int>, n: nat, k: Key, v: int)
    requires n <= |keys| == |vals|
  {
    (k in dict && dict[k] == v) || exists i :: 0 <= i < n && keys[i] == k && vals[i] == v
  }

  /** A run of updates leaves under every key the least of the values supplied for it. */
  lemma {:induction false} RunKeepsLeast(dict: map<Key, int>, keys: seq<Key>, vals: seq<int>, n: nat, k: Key)
    requires n <= |keys| == |vals|
    ensures var dict' := MergedAll(dict, keys, vals, n);
            && (k in dict' <==> exists v :: Supplied(dict, keys, vals, n, k, v))
            && (k in dict' ==> Supplied(dict, keys, vals, n, k, dict'[k]))
            && (k in dict' ==> forall v :: Supplied(dict, keys, vals, n, k, v) ==> dict'[k] <= v)
  {
    if n == 0 {
      assert k in dict ==> Supplied(dict, keys, vals, 0, k, dict[k]);
    } else {
      RunKeepsLeast(dict, keys, vals, n - 1, k);
      forall v
        ensures Supplied(dict, keys, vals, n, k, v) <==>
                Supplied(dict, keys, vals, n - 1, k, v) || (keys[n - 1] == k && vals[n - 1] == v)
      {
      }
      hide Supplied;
      var dict' := MergedAll(dict, keys, vals, n);
      if k in dict' {
        assert Supplied(dict, keys, vals, n, k, dict'[k]);
      }
      if v :| Supplied(dict, keys, vals, n, k, v) {
        assert Supplied(dict, keys, vals, n - 1, k, v) || keys[n - 1] == k;
      }
    }
  }
}
