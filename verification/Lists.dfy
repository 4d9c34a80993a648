/** The circular doubly linked lists of blocks that drive the allocator. */
module Lists {
  import opened Cells
  import opened Rings

  const MAX_TRIAL := 1

  datatype Kind = Full | Closed | Open

  /** The list a block belongs to.  Block 0 is never handed out and stays with the full ones. */
  function KindOf(b: int, info: BlockInfo): Kind {
    if b == 0 || info.num == 0 then Full
    else if info.num == 1 || info.trial == MAX_TRIAL then Closed
    else Open
  }

  /** The `next` and `prev` links run around `q` in both directions. */
  ghost predicate Circular(blocks: seq<BlockInfo>, q: seq<int>) {
    && Distinct(q)
    && (forall i {:trigger q[i]} :: 0 <= i < |q| ==> 0 <= q[i] < |blocks|)
    && (forall i {:trigger blocks[q[i]]} :: 0 <= i < |q| ==>
          && blocks[q[i]].prev == q[PrevIndex(|q|, i)]
          && blocks[q[i]].next == q[NextIndex(|q|, i)])
  }

  /** The head field of a list: 0 when the list is empty. */
  function Head(q: seq<int>): int {
    if q == [] then 0 else q[0]
  }

  /** The two states of the bookkeeping differ in the list links only. */
  ghost predicate SameStock(blocks: seq<BlockInfo>, blocks': seq<BlockInfo>) {
    && |blocks| == |blocks'|
    && forall b :: 0 <= b < |blocks| ==>
         blocks'[b] == blocks[b].(prev := blocks'[b].prev, next := blocks'[b].next)
  }

  /** The bookkeeping once the neighbours of `bi` point past it. */
  function Unlinked(blocks: seq<BlockInfo>, bi: int): seq<BlockInfo>
    requires 0 <= bi < |blocks|
    requires 0 <= blocks[bi].prev < |blocks| && 0 <= blocks[bi].next < |blocks|
  {
    var b := blocks[bi];
    var blocks1 := blocks[b.prev := blocks[b.prev].(next := b.next)];
    blocks1[b.next := blocks1[b.next].(prev := b.prev)]
  }

  lemma UnlinkedAt(blocks: seq<BlockInfo>, q: seq<int>, k: nat, i: nat)
    requires Circular(blocks, q) && k < |q| && i < |q| && i != k
    ensures 0 <= blocks[q[k]].prev < |blocks| && 0 <= blocks[q[k]].next < |blocks|
    ensures var b := Unlinked(blocks, q[k])[q[i]];
            && b.prev == (if PrevIndex(|q|, i) == k then q[PrevIndex(|q|, k)] else q[PrevIndex(|q|, i)])
            && b.next == (if NextIndex(|q|, i) == k then q[NextIndex(|q|, k)] else q[NextIndex(|q|, i)])
  {
    var n := |q|;
    assert blocks[q[i]].prev == q[PrevIndex(n, i)] && blocks[q[i]].next == q[NextIndex(n, i)];
    assert blocks[q[k]].prev == q[PrevIndex(n, k)] && blocks[q[k]].next == q[NextIndex(n, k)];
  }

  lemma UnlinkedFrame(blocks: seq<BlockInfo>, q: seq<int>, k: nat)
    requires Circular(blocks, q) && k < |q|
    ensures 0 <= blocks[q[k]].prev < |blocks| && 0 <= blocks[q[k]].next < |blocks|
    ensures SameStock(blocks, Unlinked(blocks, q[k]))
    ensures forall b :: 0 <= b < |blocks| && b !in q ==> Unlinked(blocks, q[k])[b] == blocks[b]
  {
    var n := |q|;
    assert blocks[q[k]].prev == q[PrevIndex(n, k)] && blocks[q[k]].next == q[NextIndex(n, k)];
    assert q[PrevIndex(n, k)] in q && q[NextIndex(n, k)] in q;
    hide PrevIndex, NextIndex, Circular;
  }

  /** Taking a block out of a list leaves a list. */
  lemma UnlinkedIsCircular(blocks: seq<BlockInfo>, q: seq<int>, k: nat)
    requires Circular(blocks, q) && k < |q|
    requires 0 <= blocks[q[k]].prev < |blocks| && 0 <= blocks[q[k]].next < |blocks|
    ensures Circular(Unlinked(blocks, q[k]), Without(q, k))
  {
    var p, blocks' := Without(q, k), Unlinked(blocks, q[k]);
    WithoutMembers(q, k);
    forall i | 0 <= i < |p|
      ensures 0 <= p[i] < |blocks'|
      ensures blocks'[p[i]].prev == p[PrevIndex(|p|, i)] && blocks'[p[i]].next == p[NextIndex(|p|, i)]
    {
      UnlinkedIsCircularAt(blocks, q, k, i, p);
    }
    hide Unlinked, Without, Distinct;
  }

  lemma UnlinkedIsCircularAt(blocks: seq<BlockInfo>, q: seq<int>, k: nat, i: nat, p: seq<int>)
    requires Circular(blocks, q) && k < |q| && i < |q| - 1 && p == Without(q, k)
    requires 0 <= blocks[q[k]].prev < |blocks| && 0 <= blocks[q[k]].next < |blocks|
    ensures |p| == |q| - 1 && 0 <= p[i] < |blocks|
    ensures var b := Unlinked(blocks, q[k])[p[i]];
            b.prev == p[PrevIndex(|p|, i)] && b.next == p[NextIndex(|p|, i)]
  {
    var n, j := |q|, Lift(k, i);
    LiftNeighbours(n, k, i);
    WithoutAt(q, k, i);
    WithoutAt(q, k, PrevIndex(n - 1, i));
    WithoutAt(q, k, NextIndex(n - 1, i));
    UnlinkedAt(blocks, q, k, j);
    hide Circular, Unlinked, Distinct, Without, Lift, PrevIndex, NextIndex;
  }

  /** The bookkeeping once `bi` is linked in front of the list headed by `head`. */
  function Fronted(blocks: seq<BlockInfo>, bi: int, head: int): seq<BlockInfo>
    requires 0 <= bi < |blocks| && 0 <= head < |blocks| && 0 <= blocks[head].prev < |blocks|
  {
    var tail := blocks[head].prev;
    var blocks1 := blocks[bi := blocks[bi].(prev := tail, next := head)];
    var blocks2 := blocks1[tail := blocks1[tail].(next := bi)];
    blocks2[head := blocks2[head].(prev := bi)]
  }

  lemma FrontedAt(blocks: seq<BlockInfo>, q: seq<int>, bi: int, i: nat)
    requires Circular(blocks, q) && q != [] && bi !in q && 0 <= bi < |blocks| && i < |q| + 1
    requires 0 <= blocks[q[0]].prev < |blocks|
    ensures var p := [bi] + q;
            && 0 <= p[i] < |blocks|
            && Fronted(blocks, bi, q[0])[p[i]].prev == p[PrevIndex(|p|, i)]
            && Fronted(blocks, bi, q[0])[p[i]].next == p[NextIndex(|p|, i)]
  {
    var n := |q|;
    assert blocks[q[0]].prev == q[PrevIndex(n, 0)];
    if i != 0 {
      assert q[i - 1] != bi;
      assert blocks[q[i - 1]].prev == q[PrevIndex(n, i - 1)] && blocks[q[i - 1]].next == q[NextIndex(n, i - 1)];
    }
  }

  /** Linking a block in front of a list gives a list. */
  lemma FrontedIsCircular(blocks: seq<BlockInfo>, q: seq<int>, bi: int)
    requires Circular(blocks, q) && q != [] && bi !in q && 0 <= bi < |blocks|
    ensures 0 <= blocks[q[0]].prev < |blocks|
    ensures Circular(Fronted(blocks, bi, q[0]), [bi] + q)
    ensures SameStock(blocks, Fronted(blocks, bi, q[0]))
    ensures forall b :: 0 <= b < |blocks| && b !in q && b != bi ==> Fronted(blocks, bi, q[0])[b] == blocks[b]
  {
    var p := [bi] + q;
    assert blocks[q[0]].prev == q[PrevIndex(|q|, 0)];
    var blocks' := Fronted(blocks, bi, q[0]);
    forall i | 0 <= i < |p|
      ensures 0 <= p[i] < |blocks'|
      ensures blocks'[p[i]].prev == p[PrevIndex(|p|, i)] && blocks'[p[i]].next == p[NextIndex(|p|, i)]
    {
      FrontedAt(blocks, q, bi, i);
    }
  }

  /** A list depends only on the links of its own blocks. */
  lemma CircularElsewhere(blocks: seq<BlockInfo>, q: seq<int>, blocks': seq<BlockInfo>)
    requires Circular(blocks, q) && |blocks| <= |blocks'|
    requires forall b :: b in q && 0 <= b < |blocks| ==>
               blocks'[b].prev == blocks[b].prev && blocks'[b].next == blocks[b].next
    ensures Circular(blocks', q)
  {
    forall i | 0 <= i < |q|
      ensures blocks'[q[i]].prev == q[PrevIndex(|q|, i)] && blocks'[q[i]].next == q[NextIndex(|q|, i)]
    {
      assert q[i] in q;
      assert blocks[q[i]].prev == q[PrevIndex(|q|, i)] && blocks[q[i]].next == q[NextIndex(|q|, i)];
    }
  }

  /** The next block after the head becomes the head when the head is taken out. */
  lemma HeadWithout(blocks: seq<BlockInfo>, q: seq<int>, k: nat)
    requires Circular(blocks, q) && k < |q| && |q| != 1
    ensures Head(Without(q, k)) == if k == 0 then blocks[q[0]].next else q[0]
    ensures k != 0 ==> q[k] != q[0]
  {
    assert blocks[q[0]].next == q[NextIndex(|q|, 0)];
  }

  /** A block is alone in its list exactly when it is its own successor. */
  lemma LastOne(blocks: seq<BlockInfo>, q: seq<int>, k: nat)
    requires Circular(blocks, q) && k < |q|
    ensures blocks[q[k]].next == q[k] <==> |q| == 1
  {
    assert blocks[q[k]].next == q[NextIndex(|q|, k)];
  }

  lemma EmptyHead(q: seq<int>)
    ensures 0 !in q ==> (Head(q) == 0 <==> q == [])
  {
    if q != [] {
      assert q[0] in q;
    }
  }

  lemma FirstIndex(blocks: seq<BlockInfo>, q: seq<int>, k: nat)
    requires Circular(blocks, q) && k < |q|
    ensures q[0] == q[k] ==> k == 0 && Without(q, k) == q[1..]
  {
  }

  lemma HeadOfFronted(bi: int, q: seq<int>)
    ensures Head([bi] + q) == bi
  {
  }
}
