/** What a lookup answers, in terms of the entries alone. */
module Lookups {
  import opened Slots
  import opened Cells
  import opened Rings
  import opened Allocator
  import opened Layouts
  import opened Relocation
  import opened Dictionary
  import opened Enumeration
  import opened Growth

  const NO_VALUE := 0x7ffffffe
  const NO_PATH := 0x7ffffffd

  /** The value of an entry; no value for a proper prefix of a key; else no path. */
  ghost function Lookup(dict: map<Key, int>, s: Key): int {
    if s in dict then dict[s]
    else if s == [] || exists k :: k in dict && s <= k then NO_VALUE
    else NO_PATH
  }

  lemma LookupCases(dict: map<Key, int>, key: Key)
    requires Unmarked(dict)
    ensures NO_VALUE != NO_PATH
    ensures var v := Lookup(dict, key);
            if key in dict then v == dict[key] && v != NO_VALUE && v != NO_PATH else v == NO_VALUE || v == NO_PATH
  {
  }

  /** Storing a value under `k` changes the lookup of `k`, and prefixes of `k` that led nowhere now lead somewhere. */
  lemma LookupAfterUpdate(dict: map<Key, int>, k: Key, v: int, s: Key)
    requires k != [] && Unmarked(dict)
    ensures Lookup(dict[k := v], s) ==
            if s == k then v
            else if s <= k && Lookup(dict, s) == NO_PATH then NO_VALUE
            else Lookup(dict, s)
  {
    assert NO_VALUE != NO_PATH;
    var dict' := dict[k := v];
    if m :| m in dict && s <= m {
      assert m in dict' && s <= m;
    }
    if s <= k {
      assert k in dict' && s <= k;
    }
  }

  /** Removing `k` changes the lookup of `k`, and prefixes that no other key extends lead nowhere any more. */
  lemma LookupAfterErase(dict: map<Key, int>, k: Key, s: Key)
    requires k in dict && Unmarked(dict)
    ensures Lookup(dict - {k}, s) ==
            if s <= k && s != [] && !(exists m :: m in dict && m != k && s <= m) then NO_PATH
            else if s == k then NO_VALUE
            else Lookup(dict, s)
  {
    assert NO_VALUE != NO_PATH;
    var rest := dict - {k};
    if m :| m in dict && m != k && s <= m {
      assert m in rest;
    }
    if m :| m in rest && s <= m {
      assert m in dict && m != k;
    }
    assert s <= k ==> exists m :: m in dict && s <= m;
  }

  lemma {:induction false} PrefixBeneath(s: Key, k: Key)
    ensures s <= k <==> Beneath(PathOf(s), PathOf(k))
    decreases |k|
  {
    if |s| < |k| {
      var k' := k[..|k| - 1];
      PrefixBeneath(s, k');
      assert s <= k <==> s <= k';
      PathDepth(s);
      PathDepth(k);
    } else {
      PathDepth(s);
      PathDepth(k);
      if Beneath(PathOf(s), PathOf(k)) {
        BeneathDepth(PathOf(s), PathOf(k));
      }
      assert s <= k <==> s == k;
      assert Text(PathOf(s)) == s && Text(PathOf(k)) == k;
    }
  }

  lemma {:induction false} PathDepth(k: Key)
    ensures Depth(PathOf(k)) == |k|
    decreases |k|
  {
    if k != [] {
      PathDepth(k[..|k| - 1]);
    }
  }

  /** Some entry lies below every inner place but possibly the root. */
  lemma {:induction false} SomeEntryBelow(g: Layout, h: nat, p: Path) returns (q: Path)
    requires TreeShaped(g.at.Keys, g.kids) && Fruitful(g, Root) && Bounded(g, h) && p in g.kids && p.Edge?
    ensures Beneath(p, q) && Holds(g, q)
    decreases h - Depth(p)
  {
    assert g.kids[p] != [];
    var l := g.kids[p][0];
    assert l in g.kids[p] && Edge(p, l) in g.at;
    if l == 0 {
      q := p;
    } else {
      q := SomeEntryBelow(g, h, Edge(p, l));
      BeneathTrans(p, Edge(p, l), q);
    }
  }

  /** The inner places of the tree are the prefixes of the keys. */
  lemma PlacesArePrefixes(arr: seq<Node>, g: Layout, dict: map<Key, int>, s: Key)
    requires TreeShaped(g.at.Keys, g.kids) && Fruitful(g, Root) && Represents(arr, g, dict)
    ensures PathOf(s) in g.kids <==> s == [] || exists k :: k in dict && s <= k
  {
    hide PathOf;
    PlacesOfKeys(g, dict, s);
  }

  lemma PlacesOfKeys(g: Layout, dict: map<Key, int>, s: Key)
    requires TreeShaped(g.at.Keys, g.kids) && Fruitful(g, Root) && forall k :: k in dict <==> Terminal(k) in g.at
    ensures PathOf(s) in g.kids <==> s == [] || exists k :: k in dict && s <= k
  {
    if PathOf(s) in g.kids && s != [] {
      var h := DepthOf(g.at.Keys);
      var q := SomeEntryBelow(g, h, PathOf(s));
      PathOfText(q);
      assert Terminal(Text(q)) in g.at;
      PrefixBeneath(s, Text(q));
    }
    if k :| k in dict && s <= k {
      assert Terminal(k) in g.at && PathOf(k) in g.kids;
      PrefixBeneath(s, k);
      AboveInTree(g, PathOf(s), PathOf(k));
    }
  }

  /** The slot below `p` under 0 holds a value exactly if its `check` is the slot of `p`. */
  lemma TerminalCases(arr: seq<Node>, ninfo: seq<NInfo>, g: Layout, p: Path)
    requires TreeOk(arr, ninfo, g, 0, {}) && Blank(arr, ninfo) && |arr| % 256 == 0
    requires p in g.kids && p in g.at && g.kids[p] != []
    ensures |ninfo| == |arr| && 0 <= g.at[p] < |arr| && arr[g.at[p]].base >= 0
    ensures var c := Child(arr[g.at[p]].base, 0);
            && c < |arr|
            && (Holds(g, p) <==> arr[c].check == g.at[p])
            && (Holds(g, p) ==> g.at[Edge(p, 0)] == c)
  {
    if p.Root? {
      assert NodeOk(arr, ninfo, g, p);
      ChildZero(0);
      assert Edge(Root, 0) !in g.at;
      hide NodesOk, Child;
    } else {
      EdgeCases(arr, ninfo, g, p, 0);
    }
  }

  lemma FoundEntry(arr: seq<Node>, ninfo: seq<NInfo>, g: Layout, dict: map<Key, int>, s: Key)
    requires TreeOk(arr, ninfo, g, 0, {}) && Fruitful(g, Root) && Represents(arr, g, dict) && PathOf(s) in g.kids
    ensures Terminal(s) == Edge(PathOf(s), 0)
    ensures Holds(g, PathOf(s)) <==> s in dict
    ensures s in dict ==> var c := g.at[Terminal(s)]; 0 <= c < |arr| && arr[c].base == dict[s]
    ensures Lookup(dict, s) == if s in dict then dict[s] else NO_VALUE
  {
    PlacesArePrefixes(arr, g, dict, s);
    hide TreeShaped, PathOf;
  }

  lemma NotFound(arr: seq<Node>, ninfo: seq<NInfo>, g: Layout, dict: map<Key, int>, s: Key, s': Key)
    requires TreeOk(arr, ninfo, g, 0, {}) && Fruitful(g, Root) && Represents(arr, g, dict)
    requires s' <= s && s' != [] && PathOf(s') !in g.kids
    ensures Lookup(dict, s) == NO_PATH
  {
    PlacesArePrefixes(arr, g, dict, s');
    hide TreeShaped, PathOf;
    assert forall k :: k in dict && s <= k ==> s' <= k;
  }

  lemma WholeSlice(key: Key)
    ensures key[0..|key|] == key && [] + key == key
  {
  }

  /** Every place has a child, and only places have inner children. */
  lemma PlaceKids(arr: seq<Node>, ninfo: seq<NInfo>, g: Layout, p: Path)
    requires TreeOk(arr, ninfo, g, 0, {}) && Fruitful(g, Root) && p in g.kids
    ensures g.kids[p] != []
    ensures Edge(p, 0) !in g.kids
    ensures forall l: byte :: l != 0 ==> (Edge(p, l) in g.at <==> Edge(p, l) in g.kids)
  {
    hide NodesOk, Stored, Mirrored, GoodKids;
  }

  lemma HoldsKey(arr: seq<Node>, g: Layout, dict: map<Key, int>, s: Key)
    requires Represents(arr, g, dict)
    ensures Holds(g, PathOf(s)) <==> s in dict
  {
    hide PathOf;
    assert Terminal(s) == Edge(PathOf(s), 0);
  }

  /** A zero byte after a stored key `k` leads on to the slot of its value.  The slot read for the next byte `b` lies
      inside the array exactly if the value does, and is no child of that slot. */
  lemma BehindTerminal(arr: seq<Node>, ninfo: seq<NInfo>, g: Layout, dict: map<Key, int>, k: Key, b: byte)
    requires TreeOk(arr, ninfo, g, 0, {}) && Blank(arr, ninfo) && |arr| % 256 == 0 && Represents(arr, g, dict) && k in dict
    ensures PathOf(k) in g.at && 0 <= g.at[PathOf(k)] < |arr| && arr[g.at[PathOf(k)]].base >= 0 && dict[k] >= 0
    ensures var t := Child(arr[g.at[PathOf(k)]].base, 0);
            && t < |arr| && arr[t].check == g.at[PathOf(k)] && arr[t].base == dict[k]
            && (Child(dict[k], b) < |arr| <==> dict[k] < |arr|)
            && (dict[k] < |arr| ==> arr[Child(dict[k], b)].check != t)
  {
    hide PathOf, NodesOk;
    assert Terminal(k) in g.at;
    EdgePlaced(arr, ninfo, g, PathOf(k), 0);
    BlockBounds(dict[k], Child(dict[k], b), |arr|);
    if dict[k] < |arr| {
      NoChildOf(arr, g, Terminal(k), Child(dict[k], b));
    }
  }

  lemma BlockBounds(s: nat, t: nat, n: nat)
    requires Block(s) == Block(t) && n % 256 == 0
    ensures s < n <==> t < n
  {
  }

  /** No slot has the slot of a terminal as its `check`. */
  lemma NoChildOf(arr: seq<Node>, g: Layout, x: Path, s: int)
    requires Mirrored(g) && TreeShaped(g.at.Keys, g.kids) && Stored(arr, g, 0)
    requires x in g.at && !Inner(x) && 0 <= s < |arr|
    ensures arr[s].check != g.at[x]
  {
    assert g.at[x] in g.owner && g.at[x] != 0;
    assert s in g.owner && s != 0 ==> g.owner[s].up in g.kids;
  }

  lemma NoText(text: Key, key: Key, pos: nat)
    requires pos <= |key|
    ensures text + key[pos..pos] == text
  {
  }

  lemma LongerText(dict: map<Key, int>, text: Key, key: Key, pos0: nat, pos: nat, len: nat)
    requires pos0 <= pos < len <= |key| && Readable(dict, text + key[pos0..len])
    ensures text + key[pos0..pos + 1] == text + key[pos0..pos] + [key[pos]]
    ensures PathOf(text + key[pos0..pos] + [key[pos]]) == Edge(PathOf(text + key[pos0..pos]), key[pos])
    ensures text + key[pos0..pos] + [key[pos]] <= text + key[pos0..len]
    ensures key[pos] == 0 ==> text + key[pos0..pos] !in dict
  {
    var t := text + key[pos0..pos];
    assert (t + [key[pos]])[..|t|] == t;
    assert text + key[pos0..pos + 1] == t + [key[pos]];
    var whole := text + key[pos0..len];
    assert whole == text + key[pos0..pos + 1] + key[pos + 1..len];
    assert whole[..|t|] == t && whole[|t|] == key[pos];
  }

  // ------------------------------------------------------------------ from a slot back to its text

  lemma {:induction false} TextDepth(p: Path)
    ensures |Text(p)| == Depth(p)
  {
    if p.Edge? {
      TextDepth(p.up);
    }
  }

  /** The text of `p` is that of `q` followed by `key`. */
  ghost predicate Remaining(p: Path, q: Path, key: Key) {
    Text(p) == Text(q) + key
  }

  lemma NoSuffix(p: Path)
    ensures |Text(p)| == Depth(p) && Remaining(p, p, [])
  {
    TextDepth(p);
  }

  lemma OneByteUp(p: Path, q: Path, key: Key)
    requires Remaining(p, q, key) && q.Edge?
    ensures Remaining(p, q.up, [q.via] + key) && |[q.via] + key| == |key| + 1
    ensures Depth(q) == Depth(q.up) + 1
  {
  }

  lemma SuffixDone(p: Path, q: Path, key: Key, len: nat)
    requires Remaining(p, q, key) && |key| == len
    ensures len <= |Text(p)| && key == Text(p)[|Text(p)| - len..]
  {
  }

  /** The label of a place is the exclusive or of its slot and the parent's base. */
  lemma UpFrom(arr: seq<Node>, ninfo: seq<NInfo>, g: Layout, q: Path)
    requires TreeOk(arr, ninfo, g, 0, {}) && Blank(arr, ninfo) && q in g.at && Depth(q) > 0
    ensures q.Edge? && q.up in g.at && 0 <= g.at[q] < |arr|
    ensures var from := arr[g.at[q]].check;
            && from == g.at[q.up] && 0 <= from < |arr| && arr[from].base >= 0
            && Block(arr[from].base) == Block(g.at[q]) && Label(arr[from].base, g.at[q]) == q.via
  {
    assert q.up in g.kids;
    EdgePlaced(arr, ninfo, g, q.up, q.via);
    LabelOfChild(arr[g.at[q.up]].base, q.via);
    hide TreeOk, Child, Label;
  }

  // ------------------------------------------------------------------ counting

  /** The slots below `n` that hold the value of an entry. */
  ghost function TerminalSlots(g: Layout, n: int): set<int> {
    set s | s in g.owner && s < n && !Inner(g.owner[s])
  }

  lemma CountStart(arr: seq<Node>, ninfo: seq<NInfo>, g: Layout)
    requires TreeOk(arr, ninfo, g, 0, {})
    ensures TerminalSlots(g, 0) == {}
  {
  }

  lemma CountStep(g: Layout, n: int)
    ensures |TerminalSlots(g, n + 1)| ==
            |TerminalSlots(g, n)| + (if n in g.owner && !Inner(g.owner[n]) then 1 else 0)
  {
    if n in g.owner && !Inner(g.owner[n]) {
      assert TerminalSlots(g, n + 1) == TerminalSlots(g, n) + {n};
    } else {
      assert TerminalSlots(g, n + 1) == TerminalSlots(g, n);
    }
  }

  /** A used slot equals its parent's base exactly if it is a terminal. */
  lemma SlotCases(arr: seq<Node>, ninfo: seq<NInfo>, g: Layout, s: int)
    requires TreeOk(arr, ninfo, g, 0, {}) && Blank(arr, ninfo) && 0 <= s < |arr|
    ensures arr[s].check >= 0 ==> arr[s].check < |arr|
    ensures (arr[s].check >= 0 && arr[arr[s].check].base == s) <==> s in g.owner && !Inner(g.owner[s])
  {
    OwnedInUse(arr, g, 0);
    if s != 0 && arr[s].check >= 0 {
      var q := g.owner[s];
      assert q.up in g.kids && g.at[q] == s;
      EdgePlaced(arr, ninfo, g, q.up, q.via);
      ChildZero(arr[g.at[q.up]].base);
      if Child(arr[g.at[q.up]].base, q.via) == Child(arr[g.at[q.up]].base, 0) {
        ChildInjective(arr[g.at[q.up]].base, q.via, 0);
      }
      hide Child, NodesOk, TreeShaped;
    }
  }

  /** The terminals and the entries correspond one to one. */
  lemma CountDone(arr: seq<Node>, ninfo: seq<NInfo>, g: Layout, dict: map<Key, int>)
    requires TreeOk(arr, ninfo, g, 0, {}) && Represents(arr, g, dict)
    ensures |TerminalSlots(g, |arr|)| == |dict|
  {
    var slots, keys := TerminalSlots(g, |arr|), dict.Keys;
    TerminalsAreEntries(arr, ninfo, g, dict);
    hide *;
    SameSize(g, slots, keys);
  }

  function KeyAt(g: Layout, s: int): Key {
    if s in g.owner && g.owner[s].Edge? then Text(g.owner[s].up) else []
  }

  function SlotOfKey(g: Layout, k: Key): int {
    if Terminal(k) in g.at then g.at[Terminal(k)] else 0
  }

  lemma TerminalsAreEntries(arr: seq<Node>, ninfo: seq<NInfo>, g: Layout, dict: map<Key, int>)
    requires TreeOk(arr, ninfo, g, 0, {}) && Represents(arr, g, dict)
    ensures forall s :: s in TerminalSlots(g, |arr|) ==> KeyAt(g, s) in dict && SlotOfKey(g, KeyAt(g, s)) == s
    ensures forall k :: k in dict ==> SlotOfKey(g, k) in TerminalSlots(g, |arr|) && KeyAt(g, SlotOfKey(g, k)) == k
  {
    hide TreeShaped, NodesOk;
    forall s | s in TerminalSlots(g, |arr|)
      ensures KeyAt(g, s) in dict && SlotOfKey(g, KeyAt(g, s)) == s
    {
      PathOfText(g.owner[s].up);
      hide PathOf, Text;
      assert Terminal(KeyAt(g, s)) == g.owner[s];
    }
    forall k | k in dict
      ensures SlotOfKey(g, k) in TerminalSlots(g, |arr|) && KeyAt(g, SlotOfKey(g, k)) == k
    {
      assert Text(PathOf(k)) == k;
      hide PathOf, Text;
      assert Terminal(k) in g.at;
    }
  }

  lemma {:induction false} SameSize(g: Layout, slots: set<int>, keys: set<Key>)
    requires forall s :: s in slots ==> KeyAt(g, s) in keys && SlotOfKey(g, KeyAt(g, s)) == s
    requires forall k :: k in keys ==> SlotOfKey(g, k) in slots && KeyAt(g, SlotOfKey(g, k)) == k
    ensures |slots| == |keys|
    decreases |slots|
  {
    if slots == {} {
      assert keys == {};
    } else {
      var s := SomeMember(slots);
      SameSize(g, slots - {s}, keys - {KeyAt(g, s)});
    }
  }

  // ------------------------------------------------------------------ the prefixes of a text that are keys

  /** A key found on the way down a longer text: its value and its length. */
  datatype Hit = Hit(value: int, length: nat)

  /** The entries whose keys are non-empty prefixes of `key[..n]`, shortest first. */
  ghost function Hits(dict: map<Key, int>, key: Key, n: nat): seq<Hit>
    requires n <= |key|
  {
    if n == 0 then []
    else Hits(dict, key, n - 1) + if key[..n] in dict then [Hit(dict[key[..n]], n)] else []
  }

  /** `Hits` lists exactly the keys that are prefixes of the text. */
  lemma {:induction false} HitsExact(dict: map<Key, int>, key: Key, n: nat, r: Hit)
    requires n <= |key|
    ensures r in Hits(dict, key, n) <==> 0 < r.length <= n && key[..r.length] in dict && r.value == dict[key[..r.length]]
  {
    if n > 0 {
      HitsExact(dict, key, n - 1, r);
    }
  }

  /** Longer keys come later, so no key is listed twice. */
  lemma {:induction false} HitsIncrease(dict: map<Key, int>, key: Key, n: nat, i: nat, j: nat)
    requires n <= |key| && i < j < |Hits(dict, key, n)|
    ensures Hits(dict, key, n)[i].length < Hits(dict, key, n)[j].length
  {
    var hs := Hits(dict, key, n - 1);
    if j < |hs| {
      HitsIncrease(dict, key, n - 1, i, j);
    } else {
      assert hs[i] in hs;
      HitsExact(dict, key, n - 1, hs[i]);
    }
  }

  /** `num` counts the keys met within `key[..n]`, and `results` lists the first `resultLen` of them. */
  ghost predicate Searched(dict: map<Key, int>, key: Key, n: nat, resultLen: nat, num: nat, results: seq<Hit>)
    requires n <= |key|
  {
    && num == |Hits(dict, key, n)|
    && results == Hits(dict, key, n)[..if num < resultLen then num else resultLen]
  }

  /** No stored value is one of the two marks. */
  ghost predicate Unmarked(dict: map<Key, int>) {
    forall k :: k in dict ==> dict[k] != NO_PATH && dict[k] != NO_VALUE
  }

  lemma ValuesAreNoMarks(arr: seq<Node>, g: Layout, dict: map<Key, int>)
    requires Represents(arr, g, dict)
    ensures Unmarked(dict)
  {
    assert MAX_VALUE < NO_PATH < NO_VALUE;
  }

  lemma NoHits(g: Layout, dict: map<Key, int>, key: Key, resultLen: nat)
    requires PathOf([]) in g.kids && PathOf([]) in g.at && g.at[PathOf([])] == 0
    ensures Searched(dict, key, 0, resultLen, 0, []) && PrefixAt(g, key, 0, 0)
  {
    assert key[..0] == [];
  }

  /** The first `pos` bytes of `key` lead to slot `from`. */
  ghost predicate PrefixAt(g: Layout, key: Key, pos: nat, from: int)
    requires pos <= |key|
  {
    PathOf(key[..pos]) in g.kids && PathOf(key[..pos]) in g.at && from == g.at[PathOf(key[..pos])]
  }

  lemma OneMoreByte(dict: map<Key, int>, key: Key, pos: nat)
    requires pos < |key|
    ensures Readable(dict, key) ==> Readable(dict, key[..pos] + key[pos..pos + 1])
    ensures key[..pos] + key[pos..pos + 1] == key[..pos + 1] && key[..pos] + key[pos..pos] == key[..pos]
  {
    var longer := key[..pos + 1];
    assert key[..pos] + key[pos..pos + 1] == longer;
    assert forall i :: 0 <= i < |longer| ==> longer[..i] == key[..i];
  }

  /** Looking up one byte more finds the next key that is a prefix. */
  lemma HitsStep(dict: map<Key, int>, key: Key, pos: nat, resultLen: nat, num: nat, results: seq<Hit>, value: int)
    requires pos < |key| && Searched(dict, key, pos, resultLen, num, results) && Unmarked(dict)
    requires value == Lookup(dict, key[..pos + 1])
    ensures value == NO_PATH || value == NO_VALUE ==> Searched(dict, key, pos + 1, resultLen, num, results)
    ensures value != NO_PATH && value != NO_VALUE ==>
              Searched(dict, key, pos + 1, resultLen, num + 1,
                       if num < resultLen then results + [Hit(value, pos + 1)] else results)
  {
  }

  /** Once a prefix leads nowhere, no longer prefix is a key. */
  lemma {:induction false} NoMoreHits(dict: map<Key, int>, key: Key, pos: nat, resultLen: nat, num: nat, results: seq<Hit>)
    requires pos < |key| && Lookup(dict, key[..pos + 1]) == NO_PATH && Unmarked(dict)
    requires Searched(dict, key, pos, resultLen, num, results)
    ensures Searched(dict, key, |key|, resultLen, num, results)
  {
    assert NO_VALUE != NO_PATH;
    var n := pos;
    while n < |key|
      invariant pos <= n <= |key| && Hits(dict, key, n) == Hits(dict, key, pos)
    {
      n := n + 1;
      assert key[..pos + 1] <= key[..n];
    }
  }
}
