/** Walking from one entry to the next along the child chains. */
module Walking {
  import opened Slots
  import opened Cells
  import opened Rings
  import opened Allocator
  import opened Layouts
  import opened Relocation
  import opened Dictionary
  import opened Enumeration
  import opened Lookups

  /** The places that hold a value from index `i` of the chain of `x` on, up to the end of everything below `root`. */
  ghost function FromIndex(g: Layout, h: nat, root: Path, x: Path, i: nat): seq<Path> {
    Flat(g, h, x, i) + Rest(g, h, root, x)
  }

  /** What is left of a walk below `root` after the entry at `q`. */
  ghost function Left(g: Layout, h: nat, root: Path, q: Path): seq<Path> {
    FromIndex(g, h, root, q, 1)
  }

  /** The walk stands at slot `from`, the place `q`, whose entry has the value `value`. */
  ghost predicate Arrived(g: Layout, dict: map<Key, int>, q: Path, from: int, value: int) {
    && q in g.kids && q in g.at && g.at[q] == from
    && Holds(g, q) && Text(q) in dict && dict[Text(q)] == value
  }

  lemma IndexUnique(ks: seq<byte>, i: nat)
    requires GoodKids(ks) && i < |ks|
    ensures ks[i] in ks && IndexOf(ks, ks[i]) == i
  {
  }

  /** What the first step of a walk from `p` finds. */
  lemma BeginAt(arr: seq<Node>, ninfo: seq<NInfo>, g: Layout, h: nat, p: Path)
    requires TreeOk(arr, ninfo, g, 0, {}) && Fruitful(g, Root) && p in g.kids && p in g.at && Blank(arr, ninfo)
    ensures 0 <= g.at[p] < |arr| == |ninfo| && arr[g.at[p]].base >= 0 && (g.at[p] == 0 <==> p.Root?)
    ensures g.kids[p] != [] && ninfo[g.at[p]].child == g.kids[p][0] && g.kids[p][0] in g.kids[p]
    ensures IndexOf(g.kids[p], g.kids[p][0]) == 0
    ensures Flat(g, h, p, 0) == FromIndex(g, h, p, p, 0)
    ensures p.Root? ==>
              var ks, s := g.kids[p], Child(arr[g.at[p]].base, g.kids[p][0]);
              && ks[0] == 0 && s < |ninfo|
              && ninfo[s].sibling == (if |ks| > 1 then ks[1] else 0)
              && (|ks| > 1 ==> ks[1] != 0 && ks[1] in ks && IndexOf(ks, ks[1]) == 1)
              && Flat(g, h, p, 0) == (if |ks| > 1 then FromIndex(g, h, p, p, 1) else [])
  {
    assert NodeOk(arr, ninfo, g, p) && GoodKids(g.kids[p]);
    assert g.kids[p] != [];
    IndexUnique(g.kids[p], 0);
    assert Rest(g, h, p, p) == [];
    if p.Root? {
      ChainStep(arr, ninfo, g, p, 0);
      if |g.kids[p]| > 1 {
        IndexUnique(g.kids[p], 1);
      }
      assert Branch(g, h, p, 0) == [];
      assert Flat(g, h, p, 0) == Flat(g, h, p, 1);
    }
    hide KidOk, Child, NodesOk, GoodKids, IndexOf;
  }

  /** Going down one edge does not skip an entry. */
  lemma DownStep(arr: seq<Node>, ninfo: seq<NInfo>, g: Layout, h: nat, root: Path, x: Path, c: byte)
    requires TreeOk(arr, ninfo, g, 0, {}) && Fruitful(g, Root) && Bounded(g, h) && Blank(arr, ninfo)
    requires x in g.kids && x in g.at && c in g.kids[x] && c != 0 && Beneath(root, x)
    ensures var e := Edge(x, c);
            && e in g.kids && e in g.at && 0 <= g.at[x] < |arr| && arr[g.at[x]].base >= 0
            && Child(arr[g.at[x]].base, c) == g.at[e] && 0 <= g.at[e] < |ninfo|
            && g.kids[e] != [] && ninfo[g.at[e]].child == g.kids[e][0] && g.kids[e][0] in g.kids[e]
            && IndexOf(g.kids[e], g.kids[e][0]) == 0
            && Beneath(root, e) && Depth(x) < h && e != root
            && FromIndex(g, h, root, x, IndexOf(g.kids[x], c)) == FromIndex(g, h, root, e, 0)
  {
    assert Edge(x, c) in g.at;
    EdgePlaced(arr, ninfo, g, x, c);
    DownFlat(g, h, root, x, c);
    hide TreeOk, Fruitful, Bounded, Child, FromIndex;
    BeginAt(arr, ninfo, g, h, Edge(x, c));
  }

  /** The entries from label `c` on are those below its edge, then what comes after that. */
  lemma DownFlat(g: Layout, h: nat, root: Path, x: Path, c: byte)
    requires Bounded(g, h) && x in g.kids && c in g.kids[x] && c != 0 && Beneath(root, x) && Edge(x, c) in g.at
    ensures Depth(x) < h && Edge(x, c) != root && Beneath(root, Edge(x, c))
    ensures FromIndex(g, h, root, x, IndexOf(g.kids[x], c)) == FromIndex(g, h, root, Edge(x, c), 0)
  {
    var e, i := Edge(x, c), IndexOf(g.kids[x], c);
    assert Depth(e) <= h;
    BeneathNotAbove(root, x, e);
    var a, b, r := Flat(g, h, e, 0), Flat(g, h, x, i + 1), Rest(g, h, root, x);
    assert Flat(g, h, x, i) == a + b;
    assert Rest(g, h, root, e) == b + r;
    assert (a + b) + r == a + (b + r);
  }

  /** The walk has gone all the way down to a place that holds a value. */
  lemma BeginDone(arr: seq<Node>, ninfo: seq<NInfo>, g: Layout, h: nat, dict: map<Key, int>, root: Path, q: Path)
    requires TreeOk(arr, ninfo, g, 0, {}) && Fruitful(g, Root) && Blank(arr, ninfo) && Represents(arr, g, dict)
    requires |arr| % 256 == 0
    requires q in g.kids && q in g.at && q.Edge? && 0 in g.kids[q]
    ensures 0 <= g.at[q] < |arr| && arr[g.at[q]].base >= 0 && Child(arr[g.at[q]].base, 0) < |arr|
    ensures Arrived(g, dict, q, g.at[q], arr[Child(arr[g.at[q]].base, 0)].base)
    ensures IndexOf(g.kids[q], 0) == 0
    ensures FromIndex(g, h, root, q, 0) == [q] + Left(g, h, root, q)
  {
    assert GoodKids(g.kids[q]) && Holds(g, q);
    HolderFlat(g, h, root, q);
    hide TreeOk, Child, GoodKids, Left, FromIndex;
    TerminalCases(arr, ninfo, g, q);
    PathOfText(q);
    hide PathOf, Text;
    assert Terminal(Text(q)) in g.at;
  }

  lemma HolderFlat(g: Layout, h: nat, root: Path, q: Path)
    requires q in g.kids && 0 in g.kids[q] && GoodKids(g.kids[q]) && Holds(g, q)
    ensures IndexOf(g.kids[q], 0) == 0
    ensures FromIndex(g, h, root, q, 0) == [q] + Left(g, h, root, q)
  {
    var b, r := Flat(g, h, q, 1), Rest(g, h, root, q);
    assert Branch(g, h, q, 0) == [q];
    assert Flat(g, h, q, 0) == [q] + b;
    assert ([q] + b) + r == [q] + (b + r);
  }

  /** The label at index `i` of a chain, 0 at its end. */
  function LabelAt(ks: seq<byte>, i: nat): byte {
    if i < |ks| then ks[i] else 0
  }

  /** What the sibling link of the terminal of `q` says. */
  lemma NextAt(arr: seq<Node>, ninfo: seq<NInfo>, g: Layout, h: nat, root: Path, q: Path)
    requires TreeOk(arr, ninfo, g, 0, {}) && Blank(arr, ninfo) && q in g.kids && q in g.at && Holds(g, q)
    ensures 0 <= g.at[q] < |arr| && arr[g.at[q]].base >= 0
    ensures Child(arr[g.at[q]].base, 0) < |ninfo|
    ensures ninfo[Child(arr[g.at[q]].base, 0)].sibling == LabelAt(g.kids[q], 1)
    ensures Left(g, h, root, q) == FromIndex(g, h, root, q, 1)
  {
    assert 0 in g.kids[q] && GoodKids(g.kids[q]) && NodeOk(arr, ninfo, g, q);
    assert g.kids[q][0] == 0;
    ChainStep(arr, ninfo, g, q, 0);
    hide Child, NodesOk;
  }

  /** Going up from the end of a chain does not skip an entry. */
  lemma UpStep(arr: seq<Node>, ninfo: seq<NInfo>, g: Layout, h: nat, root: Path, x: Path, i: nat) returns (j: nat)
    requires TreeOk(arr, ninfo, g, 0, {}) && Blank(arr, ninfo) && x in g.kids && x in g.at
    requires Beneath(root, x) && x != root && i >= |g.kids[x]|
    ensures x.Edge? && x.up in g.kids && x.up in g.at && Beneath(root, x.up)
    ensures 0 <= g.at[x] < |arr| == |ninfo| && arr[g.at[x]].check == g.at[x.up]
    ensures 1 <= j && ninfo[g.at[x]].sibling == LabelAt(g.kids[x.up], j)
    ensures FromIndex(g, h, root, x, i) == FromIndex(g, h, root, x.up, j)
  {
    hide Child, Flat, Rest, GoodKids, FromIndex, LabelAt, IndexOf;
    var p := x.up;
    assert x in g.at && x.via in g.kids[p];
    j := IndexOf(g.kids[p], x.via) + 1;
    EdgeSettled(arr, ninfo, g, 0, {}, p, x.via);
    UpSibling(arr, ninfo, g, x, j - 1);
    UpFlat(g, h, root, x, i);
  }

  /** The sibling link of a child is the next label of the chain. */
  lemma UpSibling(arr: seq<Node>, ninfo: seq<NInfo>, g: Layout, x: Path, k: nat)
    requires NodesOk(arr, ninfo, g, {}) && Edge(Root, 0) !in g.at
    requires x.Edge? && x in g.at && x.up in g.kids && k < |g.kids[x.up]| && g.kids[x.up][k] == x.via
    ensures 0 <= g.at[x] < |ninfo| && ninfo[g.at[x]].sibling == LabelAt(g.kids[x.up], k + 1)
  {
    var p := x.up;
    assert NodeOk(arr, ninfo, g, p) && KidOk(ninfo, g, p, arr[g.at[p]].base, g.kids[p], k);
    hide Child;
  }

  lemma UpFlat(g: Layout, h: nat, root: Path, x: Path, i: nat)
    requires x.Edge? && x != root && x in g.kids && x.up in g.kids && x.via in g.kids[x.up] && i >= |g.kids[x]|
    ensures FromIndex(g, h, root, x, i) == FromIndex(g, h, root, x.up, IndexOf(g.kids[x.up], x.via) + 1)
  {
    hide IndexOf;
    var p, j := x.up, IndexOf(g.kids[x.up], x.via) + 1;
    assert Flat(g, h, x, i) == [];
    assert Rest(g, h, root, x) == Flat(g, h, p, j) + Rest(g, h, root, p);
  }

  /** Turning into the next branch: what follows is what is below its edge, then the rest. */
  lemma TurnStep(arr: seq<Node>, ninfo: seq<NInfo>, g: Layout, h: nat, root: Path, x: Path, i: nat)
    requires TreeOk(arr, ninfo, g, 0, {}) && Blank(arr, ninfo) && Bounded(g, h) && x in g.kids && x in g.at
    requires 1 <= i && LabelAt(g.kids[x], i) != 0 && Beneath(root, x)
    ensures var e := Edge(x, LabelAt(g.kids[x], i));
            && e in g.kids && e in g.at && 0 <= g.at[x] < |arr| && arr[g.at[x]].base >= 0
            && Child(arr[g.at[x]].base, e.via) == g.at[e] && Beneath(root, e)
            && FromIndex(g, h, root, x, i) == FromIndex(g, h, root, e, 0)
  {
    var c := LabelAt(g.kids[x], i);
    assert GoodKids(g.kids[x]);
    IndexUnique(g.kids[x], i);
    assert Edge(x, c) in g.at;
    EdgePlaced(arr, ninfo, g, x, c);
    DownFlat(g, h, root, x, c);
    hide TreeOk, Child, FromIndex, Bounded, GoodKids;
  }

  /** A walk below `e` continues as the walk below `root` that contains it. */
  lemma WalkContinues(g: Layout, h: nat, root: Path, e: Path, q: Path)
    requires TreeShaped(g.at.Keys, g.kids) && q in g.at && Beneath(root, e) && Beneath(e, q)
    requires Flat(g, h, e, 0) == [q] + Left(g, h, e, q)
    ensures FromIndex(g, h, root, e, 0) == [q] + Left(g, h, root, q)
    ensures Beneath(root, q)
  {
    RestSplits(g, h, root, e, q);
    BeneathTrans(root, e, q);
    hide Flat, TreeShaped, Rest, Beneath;
    Regrouped(q, Flat(g, h, q, 1), Rest(g, h, e, q), Rest(g, h, root, e));
  }

  lemma Regrouped(q: Path, a: seq<Path>, b: seq<Path>, c: seq<Path>)
    ensures ([q] + (a + b)) + c == [q] + (a + (b + c))
  {
  }

  lemma ShapeOf(arr: seq<Node>, ninfo: seq<NInfo>, g: Layout)
    requires TreeOk(arr, ninfo, g, 0, {})
    ensures TreeShaped(g.at.Keys, g.kids)
    ensures forall p :: p in g.at ==> (g.at[p] == 0 <==> p == Root)
    ensures forall p, q :: p in g.at && q in g.at && g.at[p] == g.at[q] ==> p == q
  {
    hide NodesOk, TreeShaped;
  }

  lemma EndOfChain(arr: seq<Node>, ninfo: seq<NInfo>, g: Layout, x: Path, i: nat)
    requires TreeOk(arr, ninfo, g, 0, {}) && x in g.kids && 1 <= i && LabelAt(g.kids[x], i) == 0
    ensures i >= |g.kids[x]|
  {
    assert GoodKids(g.kids[x]);
  }

  lemma EndOfWalk(arr: seq<Node>, ninfo: seq<NInfo>, g: Layout, h: nat, x: Path, i: nat)
    requires TreeOk(arr, ninfo, g, 0, {}) && x in g.kids && 1 <= i && LabelAt(g.kids[x], i) == 0
    ensures FromIndex(g, h, x, x, i) == []
  {
    EndOfChain(arr, ninfo, g, x, i);
  }

  // ------------------------------------------------------------------ the whole walk

  /** A result of a prediction: a value, the length of the rest of its key, and the slot of the place. */
  datatype Prediction = Prediction(value: int, length: int, id: int)

  /** `r` describes the entry `k`, which extends `s`. */
  ghost predicate Predicts(g: Layout, dict: map<Key, int>, s: Key, k: Key, r: Prediction) {
    && k in dict && s <= k && r.value == dict[k] && r.length == |k| - |s|
    && PathOf(k) in g.at && g.at[PathOf(k)] == r.id
  }

  function Texts(qs: seq<Path>): (ks: seq<Key>)
    ensures |ks| == |qs| && forall i :: 0 <= i < |qs| ==> ks[i] == Text(qs[i])
  {
    seq(|qs|, i requires 0 <= i < |qs| => Text(qs[i]))
  }

  /** `ks` lists the keys that extend `s`, each once. */
  ghost predicate Enumerates(ks: seq<Key>, dict: map<Key, int>, s: Key) {
    Distinct(ks) && forall k :: k in ks <==> k in dict && s <= k
  }

  /** The keys that extend `s`. */
  ghost function Extensions(dict: map<Key, int>, s: Key): set<Key> {
    set k | k in dict && s <= k
  }

  lemma EnumeratesCount(ks: seq<Key>, dict: map<Key, int>, s: Key)
    requires Enumerates(ks, dict, s)
    ensures |ks| == |Extensions(dict, s)|
  {
    var es := Extensions(dict, s);
    assert forall k: Key :: k in ks <==> k in es;
    DistinctCount(ks, es);
  }

  /** A full walk below the place of `s` meets exactly the keys that extend `s`, each once. */
  lemma WalkIsExact(arr: seq<Node>, ninfo: seq<NInfo>, g: Layout, dict: map<Key, int>, h: nat, s: Key)
    requires TreeOk(arr, ninfo, g, 0, {}) && Represents(arr, g, dict) && Bounded(g, h) && PathOf(s) in g.kids
    ensures Enumerates(Texts(Flat(g, h, PathOf(s), 0)), dict, s)
  {
    var p := PathOf(s);
    var qs := Flat(g, h, p, 0);
    FlatDistinct(g, h, p, 0);
    forall q
      ensures q in qs <==> Holds(g, q) && Beneath(p, q)
    {
      FlatMembers(g, h, p, 0, q);
      AllMembers(g, p, q);
    }
    hide TreeOk, Flat;
    DistinctTexts(qs);
    forall k
      ensures k in Texts(qs) <==> k in dict && s <= k
    {
      TextMember(qs, k);
      PrefixBeneath(s, k);
      hide PathOf;
      assert k in dict <==> Terminal(k) in g.at;
    }
  }

  lemma TextMember(qs: seq<Path>, k: Key)
    ensures k in Texts(qs) <==> PathOf(k) in qs
  {
    if k in Texts(qs) {
      var i :| 0 <= i < |qs| && Texts(qs)[i] == k;
      PathOfText(qs[i]);
    }
    if PathOf(k) in qs {
      var i :| 0 <= i < |qs| && qs[i] == PathOf(k);
      assert Texts(qs)[i] == k;
    }
  }

  lemma DistinctTexts(qs: seq<Path>)
    requires Distinct(qs)
    ensures Distinct(Texts(qs))
  {
    forall i, j | 0 <= i < j < |qs|
      ensures Texts(qs)[i] != Texts(qs)[j]
    {
      PathOfText(qs[i]);
      PathOfText(qs[j]);
    }
  }

  /** Nothing extends a text whose place is not in the tree. */
  lemma NothingToWalk(g: Layout, dict: map<Key, int>, s: Key, resultLen: nat)
    requires Lookup(dict, s) == NO_PATH && Unmarked(dict)
    ensures Enumerates([], dict, s) && Reported(g, dict, s, [], resultLen, 0, [])
  {
    assert NO_VALUE != NO_PATH;
  }

  /** The text a prediction starts from and the suffix of the length it reports make up the key. */
  lemma SuffixCompletes(g: Layout, dict: map<Key, int>, s: Key, k: Key, r: Prediction)
    requires Predicts(g, dict, s, k, r)
    ensures PathOf(k) in g.at && g.at[PathOf(k)] == r.id && 0 <= r.length <= |Text(PathOf(k))|
    ensures s + Text(PathOf(k))[|Text(PathOf(k))| - r.length..] == k && k in dict && dict[k] == r.value
  {
    assert Text(PathOf(k)) == k;
    hide PathOf, Text;
    assert k == k[..|s|] + k[|s|..];
  }

  /** A walk below `p` that has met `done` and stands at `q`, or has ended. */
  ghost predicate Walked(g: Layout, dict: map<Key, int>, h: nat, p: Path, done: seq<Path>,
                         q: Path, from: int, value: int)
  {
    if value == NO_PATH then Flat(g, h, p, 0) == done
    else Arrived(g, dict, q, from, value) && Beneath(p, q) && Flat(g, h, p, 0) == done + [q] + Left(g, h, p, q)
  }

  lemma WalkBegun(arr: seq<Node>, g: Layout, dict: map<Key, int>, h: nat, p: Path, q: Path, from: int, value: int)
    requires Represents(arr, g, dict)
    requires Flat(g, h, p, 0) == [] ==> value == NO_PATH
    requires Flat(g, h, p, 0) != [] ==>
               && Arrived(g, dict, q, from, value) && Beneath(p, q)
               && Flat(g, h, p, 0) == [q] + Left(g, h, p, q)
    ensures Walked(g, dict, h, p, [], q, from, value)
    ensures value != NO_PATH ==> Flat(g, h, p, 0) != []
  {
    assert MAX_VALUE < NO_PATH;
    hide Flat, Left;
    assert [] + [q] + Left(g, h, p, q) == [q] + Left(g, h, p, q);
  }

  lemma WalkAdvanced(arr: seq<Node>, g: Layout, dict: map<Key, int>, h: nat, p: Path, done: seq<Path>,
                     q0: Path, from0: int, value0: int, q: Path, from: int, value: int)
    requires Represents(arr, g, dict) && Walked(g, dict, h, p, done, q0, from0, value0) && value0 != NO_PATH
    requires Left(g, h, p, q0) == [] ==> value == NO_PATH
    requires Left(g, h, p, q0) != [] ==>
               && Arrived(g, dict, q, from, value) && Beneath(p, q)
               && Left(g, h, p, q0) == [q] + Left(g, h, p, q)
    ensures Walked(g, dict, h, p, done + [q0], q, from, value)
    ensures value != NO_PATH ==> Left(g, h, p, q0) != []
    ensures |done| < |Flat(g, h, p, 0)|
  {
    assert MAX_VALUE < NO_PATH;
    hide Flat, Left;
    if value == NO_PATH {
      assert done + [q0] + [] == done + [q0];
    } else {
      assert done + [q0] + ([q] + Left(g, h, p, q)) == done + [q0] + [q] + Left(g, h, p, q);
    }
  }

  /** The entry a walk below the place of `s` stands at. */
  lemma WalkMeets(g: Layout, dict: map<Key, int>, h: nat, s: Key, done: seq<Path>,
                  q: Path, from: int, value: int, len: int)
    requires Walked(g, dict, h, PathOf(s), done, q, from, value) && value != NO_PATH
    requires len == Depth(q) - Depth(PathOf(s))
    ensures Predicts(g, dict, s, Text(q), Prediction(value, len, from))
  {
    hide Flat, Left;
    PathOfText(q);
    PathDepth(s);
    TextDepth(q);
    PrefixBeneath(s, Text(q));
    hide PathOf, Text;
  }

  lemma WalkAt(g: Layout, dict: map<Key, int>, h: nat, p: Path, done: seq<Path>, q: Path, from: int, value: int)
    requires Walked(g, dict, h, p, done, q, from, value) && value != NO_PATH
    ensures q in g.kids && q in g.at && g.at[q] == from && Holds(g, q) && Beneath(p, q)
  {
  }

  /** `ks` lists the keys that extend `s` in the order of the child chains. */
  ghost predicate InWalkOrder(g: Layout, s: Key, ks: seq<Key>) {
    exists h :: Bounded(g, h) && ks == Texts(Flat(g, h, PathOf(s), 0))
  }

  lemma WalkedInOrder(g: Layout, h: nat, s: Key, ks: seq<Key>)
    requires Bounded(g, h) && ks == Texts(Flat(g, h, PathOf(s), 0))
    ensures InWalkOrder(g, s, ks)
  {
  }

  lemma NothingInOrder(arr: seq<Node>, ninfo: seq<NInfo>, g: Layout, dict: map<Key, int>, s: Key)
    requires TreeOk(arr, ninfo, g, 0, {}) && Fruitful(g, Root) && Represents(arr, g, dict)
    requires Lookup(dict, s) == NO_PATH && Unmarked(dict)
    ensures InWalkOrder(g, s, [])
  {
    assert NO_VALUE != NO_PATH;
    PlacesArePrefixes(arr, g, dict, s);
    hide TreeOk, Represents, Fruitful, PathOf;
    var h := TreeDepth(g);
    assert Flat(g, h, PathOf(s), 0) == [];
    assert Texts([]) == [];
  }

  /** `num` counts the keys `ks`, and `results` describes the first `resultLen` of them. */
  ghost predicate Reported(g: Layout, dict: map<Key, int>, s: Key, ks: seq<Key>,
                           resultLen: nat, num: nat, results: seq<Prediction>)
  {
    && num == |ks|
    && |results| == (if num < resultLen then num else resultLen)
    && forall i :: 0 <= i < |results| ==> Predicts(g, dict, s, ks[i], results[i])
  }

  ghost predicate Foretold(g: Layout, dict: map<Key, int>, s: Key, r: Prediction) {
    exists k :: Predicts(g, dict, s, k, r)
  }

  /** The results are as many as there are extensions, or as fit; each describes one, and no two the same one. */
  ghost predicate Predicted(g: Layout, dict: map<Key, int>, s: Key, resultLen: nat, num: nat, results: seq<Prediction>) {
    && num == |Extensions(dict, s)|
    && |results| == (if num < resultLen then num else resultLen)
    && (forall i :: 0 <= i < |results| ==> Foretold(g, dict, s, results[i]))
    && (forall i, j :: 0 <= i < j < |results| ==> results[i].id != results[j].id)
  }

  lemma ReportPredicts(g: Layout, dict: map<Key, int>, s: Key, ks: seq<Key>, resultLen: nat, num: nat, results: seq<Prediction>)
    requires Enumerates(ks, dict, s) && Reported(g, dict, s, ks, resultLen, num, results)
    requires forall p, q :: p in g.at && q in g.at && g.at[p] == g.at[q] ==> p == q
    ensures Predicted(g, dict, s, resultLen, num, results)
  {
    EnumeratesCount(ks, dict, s);
    forall i, j | 0 <= i < j < |results|
      ensures results[i].id != results[j].id
    {
      assert Predicts(g, dict, s, ks[i], results[i]) && Predicts(g, dict, s, ks[j], results[j]);
      assert Text(PathOf(ks[i])) == ks[i] && Text(PathOf(ks[j])) == ks[j];
      assert ks[i] != ks[j];
      assert PathOf(ks[i]) in g.at && PathOf(ks[j]) in g.at;
      assert g.at[PathOf(ks[i])] != g.at[PathOf(ks[j])];
      hide PathOf, Text;
    }
    forall i | 0 <= i < |results|
      ensures Foretold(g, dict, s, results[i])
    {
      assert Predicts(g, dict, s, ks[i], results[i]);
    }
  }

  lemma NothingReported(g: Layout, dict: map<Key, int>, s: Key, resultLen: nat)
    ensures Reported(g, dict, s, Texts([]), resultLen, 0, [])
    ensures Reported(g, dict, s, [], resultLen, 0, [])
  {
  }

  lemma OneReported(g: Layout, dict: map<Key, int>, s: Key, done: seq<Path>, q: Path,
                    resultLen: nat, num: nat, results: seq<Prediction>, r: Prediction)
    requires Reported(g, dict, s, Texts(done), resultLen, num, results) && Predicts(g, dict, s, Text(q), r)
    ensures Reported(g, dict, s, Texts(done + [q]), resultLen, num + 1,
                     if num < resultLen then results + [r] else results)
  {
    hide Predicts, Text;
  }

  /** A list of all keys is as long as the dictionary. */
  lemma EnumeratesAll(ks: seq<Key>, dict: map<Key, int>)
    requires Enumerates(ks, dict, [])
    ensures |ks| == |dict|
  {
    assert forall k :: k in dict <==> k in ks;
    DistinctCount(ks, dict.Keys);
  }

  lemma WalkEnds(g: Layout, dict: map<Key, int>, h: nat, p: Path, done: seq<Path>, q: Path, from: int)
    requires Walked(g, dict, h, p, done, q, from, NO_PATH)
    ensures done == Flat(g, h, p, 0)
  {
  }

  // ------------------------------------------------------------------ the values in the order of a walk

  ghost function Values(dict: map<Key, int>, ks: seq<Key>): (vs: seq<int>)
    ensures |vs| == |ks| && forall i :: 0 <= i < |ks| && ks[i] in dict ==> vs[i] == dict[ks[i]]
  {
    seq(|ks|, i requires 0 <= i < |ks| => if ks[i] in dict then dict[ks[i]] else 0)
  }

  /** The values a visit to the part below `key` meets: the one of `key` itself, if any, and then those of `ks`. */
  ghost function Visits(dict: map<Key, int>, key: Key, ks: seq<Key>): seq<int> {
    (if key in dict then [dict[key]] else []) + Values(dict, ks)
  }

  lemma VisitsNone(dict: map<Key, int>, key: Key)
    ensures Visits(dict, key, Texts([])) == if key in dict then [dict[key]] else []
    ensures Visits(dict, key, []) == if key in dict then [dict[key]] else []
  {
  }

  lemma VisitsNext(g: Layout, dict: map<Key, int>, h: nat, p: Path, key: Key, done: seq<Path>,
                   q: Path, from: int, value: int)
    requires Walked(g, dict, h, p, done, q, from, value) && value != NO_PATH
    ensures Visits(dict, key, Texts(done + [q])) == Visits(dict, key, Texts(done)) + [value]
    ensures Visits(dict, key, Texts(done + [q])) <= Visits(dict, key, Texts(Flat(g, h, p, 0)))
  {
    hide Flat, Left, Text;
    assert Values(dict, Texts(done + [q])) == Values(dict, Texts(done)) + [value];
    VisitsPrefix(dict, key, done + [q], Left(g, h, p, q), Flat(g, h, p, 0));
  }

  lemma VisitsPrefix(dict: map<Key, int>, key: Key, done: seq<Path>, rest: seq<Path>, all: seq<Path>)
    requires all == done + rest
    ensures Visits(dict, key, Texts(done)) <= Visits(dict, key, Texts(all))
  {
    hide Text;
    assert Values(dict, Texts(done)) <= Values(dict, Texts(all));
  }

  lemma VisitsBegin(dict: map<Key, int>, key: Key, all: seq<Path>)
    ensures Visits(dict, key, Texts([])) <= Visits(dict, key, Texts(all))
  {
    VisitsPrefix(dict, key, [], all, all);
  }
}
