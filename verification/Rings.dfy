/** The ring of empty slots of one block: a circular doubly linked list threaded
    through the negated `base` and `check` of the empty slots. */
module Rings {
  import opened Slots
  import opened Cells

  function NextIndex(n: nat, i: nat): nat
    requires i < n
  {
    if i + 1 < n then i + 1 else 0
  }

  function PrevIndex(n: nat, i: nat): nat
    requires i < n
  {
    if i > 0 then i - 1 else n - 1
  }

  predicate Distinct<T(==)>(r: seq<T>) {
    forall i, j :: 0 <= i < j < |r| ==> r[i] != r[j]
  }

  /** Every slot of `r` carries the negated slots of its two neighbours on the ring. */
  ghost predicate Linked(arr: seq<Node>, r: seq<int>) {
    && (forall i {:trigger r[i]} :: 0 <= i < |r| ==> 0 < r[i] < |arr|)
    && (forall i {:trigger arr[r[i]]} :: 0 <= i < |r| ==>
          arr[r[i]] == Node(-r[PrevIndex(|r|, i)], -r[NextIndex(|r|, i)]))
  }

  /** `r` is one cycle through exactly the empty slots of block `b`. */
  ghost predicate RingOf(arr: seq<Node>, b: nat, r: seq<int>) {
    && Distinct(r)
    && Linked(arr, r)
    && (forall s :: s in r <==> Free(arr, s) && Block(s) == b)
  }

  function Without<T>(r: seq<T>, k: nat): seq<T>
    requires k < |r|
  {
    r[..k] + r[k + 1..]
  }

  /** The array once the neighbours of `e` point past it. */
  function Bypassed(arr: seq<Node>, e: int): seq<Node>
    requires 0 <= e < |arr| && 0 <= -arr[e].base < |arr| && 0 <= -arr[e].check < |arr|
  {
    var n := arr[e];
    var arr1 := arr[-n.base := arr[-n.base].(check := n.check)];
    arr1[-n.check := arr1[-n.check].(base := n.base)]
  }

  lemma BypassedAt(arr: seq<Node>, r: seq<int>, k: nat, i: nat)
    requires Distinct(r) && Linked(arr, r)
    requires k < |r| && i < |r| && i != k
    ensures 0 <= -arr[r[k]].base < |arr| && 0 <= -arr[r[k]].check < |arr|
    ensures Bypassed(arr, r[k])[r[i]] ==
            Node(if PrevIndex(|r|, i) == k then -r[PrevIndex(|r|, k)] else -r[PrevIndex(|r|, i)],
                 if NextIndex(|r|, i) == k then -r[NextIndex(|r|, k)] else -r[NextIndex(|r|, i)])
  {
    var n := |r|;
    assert arr[r[i]] == Node(-r[PrevIndex(n, i)], -r[NextIndex(n, i)]);
    assert arr[r[k]] == Node(-r[PrevIndex(n, k)], -r[NextIndex(n, k)]);
  }

  /** Where the element at index `i` was before index `k` was taken out. */
  function Lift(k: nat, i: nat): nat {
    if i < k then i else i + 1
  }

  lemma WithoutAt<T>(r: seq<T>, k: nat, i: nat)
    requires k < |r| && i < |r| - 1
    ensures |Without(r, k)| == |r| - 1 && Without(r, k)[i] == r[Lift(k, i)]
  {
  }

  lemma LiftNeighbours(n: nat, k: nat, i: nat)
    requires k < n && i < n - 1
    ensures var j := Lift(k, i);
            && j < n && j != k
            && Lift(k, PrevIndex(n - 1, i)) == (if PrevIndex(n, j) == k then PrevIndex(n, k) else PrevIndex(n, j))
            && Lift(k, NextIndex(n - 1, i)) == (if NextIndex(n, j) == k then NextIndex(n, k) else NextIndex(n, j))
  {
  }

  lemma LinkedWithout(arr: seq<Node>, r: seq<int>, k: nat)
    requires Distinct(r) && Linked(arr, r) && k < |r|
    requires 0 <= -arr[r[k]].base < |arr| && 0 <= -arr[r[k]].check < |arr|
    ensures Linked(Bypassed(arr, r[k]), Without(r, k))
  {
    var q, arr' := Without(r, k), Bypassed(arr, r[k]);
    forall i | 0 <= i < |q|
      ensures 0 < q[i] < |arr'| && arr'[q[i]] == Node(-q[PrevIndex(|q|, i)], -q[NextIndex(|q|, i)])
    {
      LinkedWithoutAt(arr, r, k, i, q);
    }
  }

  lemma LinkedWithoutAt(arr: seq<Node>, r: seq<int>, k: nat, i: nat, q: seq<int>)
    requires Distinct(r) && Linked(arr, r) && k < |r| && i < |r| - 1 && q == Without(r, k)
    requires 0 <= -arr[r[k]].base < |arr| && 0 <= -arr[r[k]].check < |arr|
    ensures |q| == |r| - 1 && 0 < q[i] < |arr|
    ensures Bypassed(arr, r[k])[q[i]] == Node(-q[PrevIndex(|q|, i)], -q[NextIndex(|q|, i)])
  {
    var n, j := |r|, Lift(k, i);
    LiftNeighbours(n, k, i);
    WithoutAt(r, k, i);
    WithoutAt(r, k, PrevIndex(n - 1, i));
    WithoutAt(r, k, NextIndex(n - 1, i));
    BypassedAt(arr, r, k, j);
    hide Linked, Bypassed, Distinct, Without, Lift, PrevIndex, NextIndex;
  }

  /** Pointing past a ring element touches ring elements only and leaves them empty. */
  lemma BypassedFrame(arr: seq<Node>, r: seq<int>, k: nat)
    requires Linked(arr, r) && k < |r|
    ensures 0 <= -arr[r[k]].base < |arr| && 0 <= -arr[r[k]].check < |arr|
    ensures |Bypassed(arr, r[k])| == |arr|
    ensures forall s :: Free(Bypassed(arr, r[k]), s) <==> Free(arr, s)
    ensures forall s :: 0 <= s < |arr| && s !in r ==> Bypassed(arr, r[k])[s] == arr[s]
  {
    var n := |r|;
    assert arr[r[k]] == Node(-r[PrevIndex(n, k)], -r[NextIndex(n, k)]);
    assert arr[r[PrevIndex(n, k)]].check < 0;
    assert arr[r[NextIndex(n, k)]].check < 0;
    assert forall s :: s in r && 0 <= s < |arr| ==> r[PrevIndex(n, k)] in r && r[NextIndex(n, k)] in r;
    hide Linked, PrevIndex, NextIndex;
  }

  /** Writing to a slot that is not on the ring keeps the ring linked. */
  lemma LinkedElsewhere(arr: seq<Node>, r: seq<int>, arr': seq<Node>)
    requires Linked(arr, r) && |arr| <= |arr'|
    requires forall s :: s in r && 0 <= s < |arr| ==> arr'[s] == arr[s]
    ensures Linked(arr', r)
  {
    forall i | 0 <= i < |r|
      ensures arr'[r[i]] == Node(-r[PrevIndex(|r|, i)], -r[NextIndex(|r|, i)])
    {
      assert r[i] in r;
      assert arr[r[i]] == Node(-r[PrevIndex(|r|, i)], -r[NextIndex(|r|, i)]);
    }
  }

  lemma WithoutMembers(r: seq<int>, k: nat)
    requires Distinct(r) && k < |r|
    ensures Distinct(Without(r, k))
    ensures forall s :: s in Without(r, k) <==> s in r && s != r[k]
  {
    var q := Without(r, k);
    forall i, j | 0 <= i < j < |q|
      ensures q[i] != q[j]
    {
      WithoutAt(r, k, i);
      WithoutAt(r, k, j);
    }
    forall s | s in r && s != r[k]
      ensures s in q
    {
      var i :| 0 <= i < |r| && r[i] == s;
      assert q[if i < k then i else i - 1] == s;
    }
  }

  /** Taking the element at index `k` off the ring and filling its slot. */
  lemma PopKeepsRing(arr: seq<Node>, b: nat, r: seq<int>, k: nat, n: Node)
    requires RingOf(arr, b, r) && k < |r| && n.check >= 0
    ensures 0 <= -arr[r[k]].base < |arr| && 0 <= -arr[r[k]].check < |arr|
    ensures RingOf(Bypassed(arr, r[k])[r[k] := n], b, Without(r, k))
  {
    BypassedFrame(arr, r, k);
    WithoutMembers(r, k);
    LinkedWithout(arr, r, k);
    var arr1 := Bypassed(arr, r[k]);
    hide Bypassed, Without, Distinct;
    LinkedElsewhere(arr1, Without(r, k), arr1[r[k] := n]);
    hide Linked;
  }

  /** Filling the last empty slot of a block. */
  lemma PopLastKeepsRing(arr: seq<Node>, b: nat, r: seq<int>, n: Node)
    requires RingOf(arr, b, r) && |r| == 1 && n.check >= 0
    ensures RingOf(arr[r[0] := n], b, [])
  {
    assert forall s :: s in r ==> s == r[0];
  }

  /** A ring depends only on which slots of its block are empty and on their contents. */
  lemma RingElsewhere(arr: seq<Node>, b: nat, r: seq<int>, arr': seq<Node>)
    requires RingOf(arr, b, r) && |arr| <= |arr'|
    requires forall s :: Free(arr, s) && Block(s) == b ==> arr'[s] == arr[s]
    requires forall s :: Free(arr', s) && Block(s) == b ==> Free(arr, s)
    ensures RingOf(arr', b, r)
  {
    hide Distinct;
    LinkedElsewhere(arr, r, arr');
    hide Linked;
  }

  /** The ring with `e` put in right after the head. */
  function Inserted(r: seq<int>, e: int): seq<int>
    requires r != []
  {
    [r[0], e] + r[1..]
  }

  /** The array once the empty slot `e` is linked between `prev` and `next`. */
  function Spliced(arr: seq<Node>, e: int, prev: int, next: int): seq<Node>
    requires 0 <= e < |arr| && 0 <= prev < |arr| && 0 <= next < |arr|
  {
    var arr1 := arr[e := Node(-prev, -next)];
    var arr2 := arr1[next := arr1[next].(base := -e)];
    arr2[prev := arr2[prev].(check := -e)]
  }

  lemma LinkedInserted(arr: seq<Node>, r: seq<int>, e: int)
    requires Distinct(r) && Linked(arr, r) && r != [] && e !in r && 0 < e < |arr|
    ensures Linked(Spliced(arr, e, r[0], r[NextIndex(|r|, 0)]), Inserted(r, e))
  {
    var q, n := Inserted(r, e), |r|;
    var arr' := Spliced(arr, e, r[0], r[NextIndex(n, 0)]);
    forall i | 0 <= i < |q|
      ensures 0 < q[i] < |arr'| && arr'[q[i]] == Node(-q[PrevIndex(|q|, i)], -q[NextIndex(|q|, i)])
    {
      LinkedInsertedAt(arr, r, e, i);
    }
  }

  lemma LinkedInsertedAt(arr: seq<Node>, r: seq<int>, e: int, i: nat)
    requires Distinct(r) && Linked(arr, r) && r != [] && e !in r && 0 < e < |arr|
    requires i < |r| + 1
    ensures var q := Inserted(r, e);
            && 0 < q[i] < |arr|
            && Spliced(arr, e, r[0], r[NextIndex(|r|, 0)])[q[i]] ==
               Node(-q[PrevIndex(|q|, i)], -q[NextIndex(|q|, i)])
  {
    var n := |r|;
    if i != 1 {
      var j := if i == 0 then 0 else i - 1;
      assert r[j] != e;
      assert arr[r[j]] == Node(-r[PrevIndex(n, j)], -r[NextIndex(n, j)]);
    }
  }

  lemma InsertedMembers(r: seq<int>, e: int)
    requires Distinct(r) && r != [] && e !in r
    ensures Distinct(Inserted(r, e))
    ensures forall s :: s in Inserted(r, e) <==> s in r || s == e
  {
    assert r == [r[0]] + r[1..];
  }

  lemma SplicedFrame(arr: seq<Node>, r: seq<int>, e: int)
    requires Linked(arr, r) && r != [] && e !in r && 0 < e < |arr|
    ensures var arr' := Spliced(arr, e, r[0], r[NextIndex(|r|, 0)]);
            && |arr'| == |arr|
            && (forall s :: Free(arr', s) <==> Free(arr, s) || s == e)
            && (forall s :: 0 <= s < |arr| && s !in r && s != e ==> arr'[s] == arr[s])
  {
    var n := |r|;
    assert arr[r[0]].check < 0;
    assert arr[r[NextIndex(n, 0)]].check < 0;
  }

  /** Emptying a slot of a block that already has an empty one. */
  lemma PushKeepsRing(arr: seq<Node>, b: nat, r: seq<int>, e: int)
    requires RingOf(arr, b, r) && r != [] && InUse(arr, e) && e != 0 && Block(e) == b
    ensures 0 < r[0] < |arr| && -arr[r[0]].check == r[NextIndex(|r|, 0)]
    ensures RingOf(Spliced(arr, e, r[0], r[NextIndex(|r|, 0)]), b, Inserted(r, e))
  {
    assert e !in r;
    SplicedFrame(arr, r, e);
    LinkedInserted(arr, r, e);
    InsertedMembers(r, e);
    assert arr[r[0]] == Node(-r[PrevIndex(|r|, 0)], -r[NextIndex(|r|, 0)]);
    hide Spliced, Inserted, Distinct, Linked;
  }

  /** Emptying a slot of a full block. */
  lemma PushFirstKeepsRing(arr: seq<Node>, b: nat, e: int)
    requires RingOf(arr, b, []) && InUse(arr, e) && e != 0 && Block(e) == b
    ensures RingOf(arr[e := Node(-e, -e)], b, [e])
  {
    var arr' := arr[e := Node(-e, -e)];
    assert forall s :: Free(arr', s) <==> Free(arr, s) || s == e;
    assert forall s :: s in [e] <==> s == e;
  }

  /** The ring seen from the element at index `k`. */
  function Rotated(r: seq<int>, k: nat): seq<int>
    requires k < |r|
  {
    r[k..] + r[..k]
  }

  lemma RotatedKeepsRing(arr: seq<Node>, b: nat, r: seq<int>, k: nat)
    requires RingOf(arr, b, r) && k < |r|
    ensures RingOf(arr, b, Rotated(r, k))
  {
    assert r == r[..k] + r[k..];
    assert forall s :: s in Rotated(r, k) <==> s in r;
    RotatedDistinct(r, k);
    LinkedRotated(arr, r, k);
    hide Linked, Distinct, Rotated;
  }

  lemma LinkedRotated(arr: seq<Node>, r: seq<int>, k: nat)
    requires Linked(arr, r) && k < |r|
    ensures Linked(arr, Rotated(r, k))
  {
    var q, n := Rotated(r, k), |r|;
    assert |q| == n;
    forall i | 0 <= i < n
      ensures 0 < q[i] < |arr| && arr[q[i]] == Node(-q[PrevIndex(n, i)], -q[NextIndex(n, i)])
    {
      LinkedRotatedAt(arr, r, k, i);
    }
    hide Rotated, PrevIndex, NextIndex;
  }

  lemma LinkedRotatedAt(arr: seq<Node>, r: seq<int>, k: nat, i: nat)
    requires Linked(arr, r) && k < |r| && i < |r|
    ensures var q, n := Rotated(r, k), |r|;
            |q| == n && 0 < q[i] < |arr| && arr[q[i]] == Node(-q[PrevIndex(n, i)], -q[NextIndex(n, i)])
  {
    var n, j := |r|, Turn(|r|, k, i);
    RotatedAt(r, k, i);
    RotatedAt(r, k, PrevIndex(n, i));
    RotatedAt(r, k, NextIndex(n, i));
    RotatedNeighbours(n, k, i);
    assert arr[r[j]] == Node(-r[PrevIndex(n, j)], -r[NextIndex(n, j)]);
    hide Rotated, Turn, PrevIndex, NextIndex, Linked;
  }

  function Turn(n: nat, k: nat, i: nat): nat
    requires i < n && k < n
  {
    if i < n - k then k + i else k + i - n
  }

  lemma RotatedAt(r: seq<int>, k: nat, i: nat)
    requires k < |r| && i < |r|
    ensures |Rotated(r, k)| == |r| && Turn(|r|, k, i) < |r|
    ensures Rotated(r, k)[i] == r[Turn(|r|, k, i)]
  {
  }

  lemma RotatedNeighbours(n: nat, k: nat, i: nat)
    requires i < n && k < n
    ensures Turn(n, k, i) < n
    ensures Turn(n, k, PrevIndex(n, i)) == PrevIndex(n, Turn(n, k, i))
    ensures Turn(n, k, NextIndex(n, i)) == NextIndex(n, Turn(n, k, i))
  {
  }

  lemma RotatedDistinct(r: seq<int>, k: nat)
    requires Distinct(r) && k < |r|
    ensures Distinct(Rotated(r, k))
  {
    forall i, j | 0 <= i < j < |r|
      ensures Rotated(r, k)[i] != Rotated(r, k)[j]
    {
      RotatedAt(r, k, i);
      RotatedAt(r, k, j);
    }
  }

  /** `m` consecutive slots from `n` on. */
  function Run(n: int, m: nat): seq<int> {
    seq(m, i => n + i)
  }

  /** Consecutive slots, each pointing to the next and the last to the first, form a ring. */
  lemma RunIsRing(arr: seq<Node>, b: nat, n: nat, m: nat)
    requires 0 < n && n + m <= |arr| && 256 * b <= n && n + m == 256 * b + 256
    requires forall s :: n <= s < n + m ==>
               arr[s] == Node(if s == n then -(n + m - 1) else -(s - 1), if s == n + m - 1 then 0 - n else -(s + 1))
    requires forall s :: 256 * b <= s < n ==> !Free(arr, s)
    ensures RingOf(arr, b, Run(n, m))
  {
    var r := Run(n, m);
    forall s
      ensures s in r <==> Free(arr, s) && Block(s) == b
    {
      if n <= s < n + m {
        assert r[s - n] == s;
      }
    }
    forall i | 0 <= i < |r|
      ensures arr[r[i]] == Node(-r[PrevIndex(|r|, i)], -r[NextIndex(|r|, i)])
    {
    }
  }

  /** A block has no more empty slots than slots. */
  lemma RingSize(arr: seq<Node>, b: nat, r: seq<int>)
    requires RingOf(arr, b, r)
    ensures |r| <= 256
    ensures b == 0 ==> |r| <= 255
  {
    hide Linked;
    var lo := if b == 0 then 1 else 256 * b;
    assert forall s :: s in r ==> lo <= s < 256 * b + 256;
    DistinctInRange(r, lo, 256 * b + 256);
  }

  lemma {:induction false} DistinctInRange(r: seq<int>, lo: int, hi: int)
    requires Distinct(r) && lo <= hi
    requires forall s :: s in r ==> lo <= s < hi
    ensures |r| <= hi - lo
    decreases hi - lo
  {
    if r != [] {
      assert r[0] in r;
      assert lo <= r[0] < hi;
    }
    if lo == hi {
    } else if exists k :: 0 <= k < |r| && r[k] == hi - 1 {
      var k :| 0 <= k < |r| && r[k] == hi - 1;
      WithoutMembers(r, k);
      DistinctInRange(Without(r, k), lo, hi - 1);
    } else {
      DistinctInRange(r, lo, hi - 1);
    }
  }

  /** A sequence without repetitions is as long as its set of elements. */
  lemma {:induction false} DistinctCount<T>(ks: seq<T>, s: set<T>)
    requires Distinct(ks) && forall k :: k in ks <==> k in s
    ensures |ks| == |s|
  {
    if ks == [] {
      assert s == {};
    } else {
      var n := |ks| - 1;
      assert ks[n] in s;
      assert forall k :: k in ks[..n] <==> k in s - {ks[n]};
      DistinctCount(ks[..n], s - {ks[n]});
    }
  }

  lemma SomeMember<T>(s: set<T>) returns (x: T)
    requires s != {}
    ensures x in s
  {
    x :| x in s;
  }
}
