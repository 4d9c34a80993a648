/** The allocator's invariant: one ring of empty slots per block and three lists of blocks. */
module Allocator {
  import opened Slots
  import opened Cells
  import opened Rings
  import opened Lists

  /** `rings[b]` is the ring of block `b`; `num` counts it and `ehead` points to its first slot.
      Block 0 counts the root's slot as well. */
  ghost predicate RingsOk(arr: seq<Node>, blocks: seq<BlockInfo>, rings: seq<seq<int>>) {
    && |blocks| >= 1
    && |arr| == 256 * |blocks|
    && |rings| == |blocks|
    && (forall b :: 0 <= b < |rings| ==> RingOf(arr, b, rings[b]))
    && (forall b :: 0 <= b < |rings| ==> Counted(b, blocks[b], rings[b]))
  }

  ghost predicate Counted(b: nat, info: BlockInfo, r: seq<int>) {
    && info.num == |r| + (if b == 0 then 1 else 0)
    && (r != [] ==> info.ehead == r[0])
    && (b == 0 && r == [] ==> 0 < info.ehead < 256)
  }

  /** Every block is in the list of its kind and in no other; block `ex` is filed as a `kind` instead. */
  ghost predicate FiledAs(blocks: seq<BlockInfo>, lists: map<Kind, seq<int>>, ex: int, kind: Kind) {
    && (forall k: Kind :: k in lists)
    && (forall k: Kind :: Circular(blocks, lists[k]))
    && (forall k: Kind, b {:trigger b in lists[k]} ::
          b in lists[k] <==> 0 <= b < |blocks| && (if b == ex then kind else KindOf(b, blocks[b])) == k)
  }

  ghost predicate ListsOk(blocks: seq<BlockInfo>, lists: map<Kind, seq<int>>) {
    FiledAs(blocks, lists, -1, Full) && Trials(blocks)
  }

  /** The slots of `arr` are kept; `e` is the only new one in use. */
  ghost predicate Took(arr: seq<Node>, arr': seq<Node>, e: int) {
    && |arr| <= |arr'|
    && 0 < e < |arr'|
    && !InUse(arr, e)
    && forall s :: InUse(arr', s) <==> InUse(arr, s) || s == e
  }

  /** The slots in use, `x` apart, have the same contents. */
  ghost predicate SameExcept(arr: seq<Node>, arr': seq<Node>, x: int) {
    && |arr| <= |arr'|
    && forall s :: InUse(arr, s) && s != x ==> arr'[s] == arr[s]
  }

  /** The side table grew by blank entries. */
  ghost predicate Grown(ninfo: seq<NInfo>, ninfo': seq<NInfo>) {
    && |ninfo| <= |ninfo'|
    && (forall s :: 0 <= s < |ninfo| ==> ninfo'[s] == ninfo[s])
    && (forall s :: |ninfo| <= s < |ninfo'| ==> ninfo'[s] == NO_INFO)
  }

  /** Empty slots have blank entries in the side table. */
  ghost predicate Blank(arr: seq<Node>, ninfo: seq<NInfo>) {
    && |ninfo| == |arr|
    && forall s :: Free(arr, s) ==> ninfo[s] == NO_INFO
  }

  lemma FreeOnRing(arr: seq<Node>, blocks: seq<BlockInfo>, rings: seq<seq<int>>, e: int)
    requires RingsOk(arr, blocks, rings) && Free(arr, e)
    ensures Block(e) < |rings| && e in rings[Block(e)]
  {
    assert RingOf(arr, Block(e), rings[Block(e)]);
  }

  /** Changing one block's slots and counters leaves the rings of the others. */
  lemma OneRingChanged(arr: seq<Node>, blocks: seq<BlockInfo>, rings: seq<seq<int>>, bi: nat, r: seq<int>,
                       arr': seq<Node>, blocks': seq<BlockInfo>)
    requires RingsOk(arr, blocks, rings) && bi < |rings|
    requires |arr'| == |arr| && |blocks'| == |blocks|
    requires forall s :: 0 <= s < |arr| && Block(s) != bi && arr'[s] != arr[s] ==> InUse(arr, s) && arr'[s].check >= 0
    requires forall b :: 0 <= b < |blocks| && b != bi ==>
               blocks'[b].num == blocks[b].num && blocks'[b].ehead == blocks[b].ehead
    requires RingOf(arr', bi, r) && Counted(bi, blocks'[bi], r)
    ensures RingsOk(arr', blocks', rings[bi := r])
  {
    var rings' := rings[bi := r];
    forall b | 0 <= b < |rings'|
      ensures RingOf(arr', b, rings'[b]) && Counted(b, blocks'[b], rings'[b])
    {
      if b != bi {
        assert RingOf(arr, b, rings[b]) && Counted(b, blocks[b], rings[b]);
        hide RingOf;
        RingElsewhere(arr, b, rings[b], arr');
      }
    }
  }

  /** Rewriting slots in use leaves every ring alone. */
  lemma RingsElsewhere(arr: seq<Node>, blocks: seq<BlockInfo>, rings: seq<seq<int>>, arr': seq<Node>)
    requires RingsOk(arr, blocks, rings) && |arr'| == |arr|
    requires forall s :: 0 <= s < |arr| && arr'[s] != arr[s] ==> s == 0 || (arr[s].check >= 0 && arr'[s].check >= 0)
    ensures RingsOk(arr', blocks, rings)
  {
    forall b | 0 <= b < |rings|
      ensures RingOf(arr', b, rings[b])
    {
      assert RingOf(arr, b, rings[b]);
      hide RingOf;
      RingElsewhere(arr, b, rings[b], arr');
    }
  }

  /** The rings do not see the links between blocks. */
  lemma RingsSameStock(arr: seq<Node>, blocks: seq<BlockInfo>, rings: seq<seq<int>>, blocks': seq<BlockInfo>)
    requires RingsOk(arr, blocks, rings) && SameStock(blocks, blocks')
    ensures RingsOk(arr, blocks', rings)
  {
    hide RingsOk;
    RingsSameCounts(arr, blocks, rings, blocks');
  }

  lemma RingsSameCounts(arr: seq<Node>, blocks: seq<BlockInfo>, rings: seq<seq<int>>, blocks': seq<BlockInfo>)
    requires RingsOk(arr, blocks, rings) && |blocks'| == |blocks|
    requires forall b :: 0 <= b < |blocks| ==> blocks'[b].num == blocks[b].num && blocks'[b].ehead == blocks[b].ehead
    ensures RingsOk(arr, blocks', rings)
  {
    hide RingOf;
    forall b | 0 <= b < |rings|
      ensures Counted(b, blocks'[b], rings[b])
    {
      assert Counted(b, blocks[b], rings[b]);
    }
  }

  /** A block whose counters change stays filed under its old kind. */
  lemma FiledUnder(blocks: seq<BlockInfo>, lists: map<Kind, seq<int>>, bi: int, blocks': seq<BlockInfo>)
    requires FiledAs(blocks, lists, -1, Full) && 0 <= bi < |blocks|
    requires |blocks'| == |blocks|
    requires forall b :: 0 <= b < |blocks| && b != bi ==> blocks'[b] == blocks[b]
    requires blocks'[bi].prev == blocks[bi].prev && blocks'[bi].next == blocks[bi].next
    ensures FiledAs(blocks', lists, bi, KindOf(bi, blocks[bi]))
  {
    forall k: Kind
      ensures Circular(blocks', lists[k])
    {
      CircularElsewhere(blocks, lists[k], blocks');
    }
    hide Circular;
  }

  /** A block filed under the kind it has is filed. */
  lemma FiledRight(blocks: seq<BlockInfo>, lists: map<Kind, seq<int>>, bi: int)
    requires 0 <= bi < |blocks| && FiledAs(blocks, lists, bi, KindOf(bi, blocks[bi]))
    ensures FiledAs(blocks, lists, -1, Full)
  {
    hide Circular;
  }

  /** Lists after block `bi` moved from the list of `from` to the front of the list of `to`. */
  function Moved(lists: map<Kind, seq<int>>, bi: int, from: Kind, k: nat, to: Kind): map<Kind, seq<int>>
    requires from in lists && to in lists && k < |lists[from]|
  {
    lists[from := Without(lists[from], k)][to := [bi] + lists[to]]
  }

  lemma MovedIsFiled(blocks: seq<BlockInfo>, lists: map<Kind, seq<int>>, bi: int, from: Kind, k: nat, to: Kind,
                     blocks': seq<BlockInfo>)
    requires FiledAs(blocks, lists, bi, from) && from != to && 0 <= bi < |blocks|
    requires k < |lists[from]| && lists[from][k] == bi
    requires SameStock(blocks, blocks')
    requires Circular(blocks', Without(lists[from], k)) && Circular(blocks', [bi] + lists[to])
    requires forall b :: 0 <= b < |blocks| && b !in lists[from] && b !in lists[to] ==> blocks'[b] == blocks[b]
    ensures FiledAs(blocks', Moved(lists, bi, from, k, to), bi, to)
  {
    hide Circular, Without, KindOf, SameStock, Moved, Distinct;
    var lists' := Moved(lists, bi, from, k, to);
    MovedLists(lists, bi, from, k, to);
    forall m: Kind
      ensures Circular(blocks', lists'[m])
    {
      OtherListKept(blocks, lists, bi, from, to, m, blocks');
    }
    forall m: Kind, b {:trigger b in lists'[m]}
      ensures b in lists'[m] <==>
              0 <= b < |blocks'| && (if b == bi then to else KindOf(b, blocks'[b])) == m
    {
      MovedMember(blocks, lists, bi, from, k, to, m, b);
      SameKind(blocks, blocks', b);
    }
  }

  lemma MovedLists(lists: map<Kind, seq<int>>, bi: int, from: Kind, k: nat, to: Kind)
    requires (forall m: Kind :: m in lists) && k < |lists[from]| && from != to
    ensures var lists' := Moved(lists, bi, from, k, to);
            && (forall m: Kind :: m in lists')
            && lists'[from] == Without(lists[from], k)
            && lists'[to] == [bi] + lists[to]
            && forall m: Kind :: m != from && m != to ==> lists'[m] == lists[m]
  {
  }

  lemma OtherListKept(blocks: seq<BlockInfo>, lists: map<Kind, seq<int>>, bi: int, from: Kind, to: Kind, m: Kind,
                      blocks': seq<BlockInfo>)
    requires FiledAs(blocks, lists, bi, from) && SameStock(blocks, blocks')
    requires forall b :: 0 <= b < |blocks| && b !in lists[from] && b !in lists[to] ==> blocks'[b] == blocks[b]
    ensures m != from && m != to ==> Circular(blocks', lists[m])
  {
    hide KindOf;
    if m != from && m != to {
      assert forall b :: b in lists[m] ==> b !in lists[from] && b !in lists[to];
      CircularElsewhere(blocks, lists[m], blocks');
    }
  }

  lemma SameKind(blocks: seq<BlockInfo>, blocks': seq<BlockInfo>, b: int)
    requires SameStock(blocks, blocks')
    ensures |blocks'| == |blocks|
    ensures 0 <= b < |blocks| ==> KindOf(b, blocks'[b]) == KindOf(b, blocks[b])
  {
  }

  lemma MovedMember(blocks: seq<BlockInfo>, lists: map<Kind, seq<int>>, bi: int, from: Kind, k: nat, to: Kind,
                    m: Kind, b: int)
    requires FiledAs(blocks, lists, bi, from) && from != to && 0 <= bi < |blocks|
    requires k < |lists[from]| && lists[from][k] == bi
    ensures b in Moved(lists, bi, from, k, to)[m] <==>
            0 <= b < |blocks| && (if b == bi then to else KindOf(b, blocks[b])) == m
  {
    assert Distinct(lists[from]) by {
      assert Circular(blocks, lists[from]);
    }
    WithoutMembers(lists[from], k);
    hide Circular, Without, Distinct, KindOf;
    assert b in lists[m] <==> 0 <= b < |blocks| && (if b == bi then from else KindOf(b, blocks[b])) == m;
    assert bi in lists[from];
  }

  ghost predicate MayTransfer(blocks: seq<BlockInfo>, lists: map<Kind, seq<int>>, bi: int, from: Kind, to: Kind) {
    && FiledAs(blocks, lists, bi, from) && from != to && 0 < bi < |blocks|
    && (if to == Full then blocks[bi].num == 0 else blocks[bi].num != 0)
  }

  /** The full list always holds block 0 and the others never do. */
  lemma BlockZero(blocks: seq<BlockInfo>, lists: map<Kind, seq<int>>, bi: int, kind: Kind, m: Kind)
    requires FiledAs(blocks, lists, bi, kind) && bi != 0 && |blocks| >= 1
    ensures m in lists && (0 in lists[m] <==> m == Full)
  {
    hide Circular;
  }

  lemma BeforeTransfer(blocks: seq<BlockInfo>, lists: map<Kind, seq<int>>, bi: int, from: Kind, to: Kind) returns (k: nat)
    requires MayTransfer(blocks, lists, bi, from, to)
    ensures from in lists && to in lists
    ensures Circular(blocks, lists[from]) && k < |lists[from]| && lists[from][k] == bi
    ensures Head(lists[from]) == lists[from][0]
    ensures (blocks[bi].next == bi) == (|lists[from]| == 1)
    ensures (Head(lists[to]) == 0 && blocks[bi].num != 0) == (lists[to] == [])
  {
    BlockZero(blocks, lists, bi, from, to);
    assert bi in lists[from];
    k :| 0 <= k < |lists[from]| && lists[from][k] == bi;
    LastOne(blocks, lists[from], k);
    EmptyHead(lists[to]);
    hide Circular, KindOf;
    assert to == Full ==> lists[to] != [];
  }

  lemma BetweenTransfer(blocks: seq<BlockInfo>, lists: map<Kind, seq<int>>, bi: int, from: Kind, k: nat, to: Kind,
                        blocks1: seq<BlockInfo>)
    requires MayTransfer(blocks, lists, bi, from, to)
    requires k < |lists[from]| && lists[from][k] == bi
    requires SameStock(blocks, blocks1)
    requires forall b :: 0 <= b < |blocks| && b !in lists[from] ==> blocks1[b] == blocks[b]
    ensures Circular(blocks1, lists[to]) && bi !in lists[to]
    ensures 0 <= bi < |blocks1| && blocks1[bi].num == blocks[bi].num
  {
    OtherListKept(blocks, lists, bi, from, from, to, blocks1);
    hide Circular;
  }

  lemma AfterTransfer(blocks: seq<BlockInfo>, lists: map<Kind, seq<int>>, bi: int, from: Kind, k: nat, to: Kind,
                      blocks1: seq<BlockInfo>, blocks2: seq<BlockInfo>)
    requires MayTransfer(blocks, lists, bi, from, to)
    requires k < |lists[from]| && lists[from][k] == bi
    requires SameStock(blocks, blocks1) && SameStock(blocks1, blocks2)
    requires forall b :: 0 <= b < |blocks| && b !in lists[from] ==> blocks1[b] == blocks[b]
    requires forall b :: 0 <= b < |blocks| && b !in lists[to] && b != bi ==> blocks2[b] == blocks1[b]
    requires Circular(blocks1, Without(lists[from], k)) && Circular(blocks2, [bi] + lists[to])
    ensures FiledAs(blocks2, Moved(lists, bi, from, k, to), bi, to)
    ensures var lists' := Moved(lists, bi, from, k, to);
            && from in lists' && to in lists'
            && lists'[from] == Without(lists[from], k) && lists'[to] == [bi] + lists[to]
            && forall m: Kind :: m in lists' && (m != from && m != to ==> lists'[m] == lists[m])
    ensures SameStock(blocks, blocks2)
  {
    assert Circular(blocks2, Without(lists[from], k)) by {
      AfterTransferIn(blocks, lists, bi, from, k, to, blocks1, blocks2);
    }
    hide Circular;
    assert SameStock(blocks, blocks2);
    assert forall b :: 0 <= b < |blocks| && b !in lists[from] && b !in lists[to] ==> blocks2[b] == blocks[b] by {
      assert bi in lists[from];
    }
    hide SameStock;
    MovedIsFiled(blocks, lists, bi, from, k, to, blocks2);
    MovedLists(lists, bi, from, k, to);
  }

  lemma AfterTransferIn(blocks: seq<BlockInfo>, lists: map<Kind, seq<int>>, bi: int, from: Kind, k: nat, to: Kind,
                        blocks1: seq<BlockInfo>, blocks2: seq<BlockInfo>)
    requires MayTransfer(blocks, lists, bi, from, to)
    requires k < |lists[from]| && lists[from][k] == bi
    requires |blocks1| == |blocks2| == |blocks|
    requires forall b :: 0 <= b < |blocks| && b !in lists[to] && b != bi ==> blocks2[b] == blocks1[b]
    requires Circular(blocks1, Without(lists[from], k))
    ensures Circular(blocks2, Without(lists[from], k))
  {
    var q := lists[from];
    assert Distinct(q) by {
      assert Circular(blocks, q);
    }
    WithoutMembers(q, k);
    assert forall b :: b in Without(q, k) ==> b in q && b !in lists[to] && b != bi;
    hide Without, Distinct, KindOf;
    CircularElsewhere(blocks1, Without(q, k), blocks2);
  }

  /** The lists are in order but for block `bi`, which lost an empty slot. */
  ghost predicate DueDown(blocks: seq<BlockInfo>, lists: map<Kind, seq<int>>, bi: int) {
    && 0 <= bi < |blocks|
    && Trials(blocks)
    && var b := blocks[bi];
       if bi != 0 && b.num == 0 then MayTransfer(blocks, lists, bi, Closed, Full)
       else if bi != 0 && b.num == 1 && b.trial != MAX_TRIAL then MayTransfer(blocks, lists, bi, Open, Closed)
       else ListsOk(blocks, lists)
  }

  /** A block that lost an empty slot may have to change lists. */
  lemma CountedDown(blocks: seq<BlockInfo>, lists: map<Kind, seq<int>>, bi: int, ehead: int, blocks1: seq<BlockInfo>)
    requires ListsOk(blocks, lists) && 0 <= bi < |blocks|
    requires blocks[bi].num >= (if bi == 0 then 2 else 1)
    requires blocks1 == blocks[bi := blocks[bi].(num := blocks[bi].num - 1, ehead := ehead)]
    ensures DueDown(blocks1, lists, bi)
  {
    FiledUnder(blocks, lists, bi, blocks1);
    if KindOf(bi, blocks1[bi]) == KindOf(bi, blocks[bi]) {
      FiledRight(blocks1, lists, bi);
    }
    hide FiledAs;
  }

  /** The lists are in order but for block `bi`, which gained an empty slot after `trial` trials. */
  ghost predicate DueUp(blocks: seq<BlockInfo>, lists: map<Kind, seq<int>>, bi: int, trial: int) {
    && 0 <= bi < |blocks|
    && Trials(blocks)
    && var b := blocks[bi];
       if bi != 0 && b.num == 1 then MayTransfer(blocks, lists, bi, Full, Closed)
       else if bi != 0 && (b.num == 2 || trial == MAX_TRIAL) then
         MayTransfer(blocks, lists, bi, Closed, Open) && b.num >= 2 && b.trial == 0
       else ListsOk(blocks, lists)
  }

  /** A block that gained an empty slot, and had its trials reset unless it was full, may have to change lists. */
  lemma CountedUp(blocks: seq<BlockInfo>, lists: map<Kind, seq<int>>, bi: int, blocks1: seq<BlockInfo>)
    requires ListsOk(blocks, lists) && 0 <= bi < |blocks|
    requires blocks[bi].num >= (if bi == 0 then 1 else 0)
    requires |blocks1| == |blocks| && blocks1 == blocks[bi := blocks1[bi]]
    requires blocks1[bi].prev == blocks[bi].prev && blocks1[bi].next == blocks[bi].next
    requires blocks1[bi].num == blocks[bi].num + 1
    requires blocks1[bi].trial == if blocks[bi].num == 0 then blocks[bi].trial else 0
    ensures DueUp(blocks1, lists, bi, blocks[bi].trial)
  {
    FiledUnder(blocks, lists, bi, blocks1);
    if KindOf(bi, blocks1[bi]) == KindOf(bi, blocks[bi]) {
      FiledRight(blocks1, lists, bi);
    }
    hide FiledAs;
  }

  ghost predicate Trials(blocks: seq<BlockInfo>) {
    forall b :: 0 <= b < |blocks| ==> 0 <= blocks[b].trial <= MAX_TRIAL
  }

  /** Moving a block to the list of its kind completes the bookkeeping. */
  lemma Transferred(blocks1: seq<BlockInfo>, blocks2: seq<BlockInfo>, lists: map<Kind, seq<int>>, bi: int, to: Kind)
    requires 0 <= bi < |blocks1| && SameStock(blocks1, blocks2) && Trials(blocks1)
    requires FiledAs(blocks2, lists, bi, to) && KindOf(bi, blocks1[bi]) == to
    ensures ListsOk(blocks2, lists)
  {
    SameKind(blocks1, blocks2, bi);
    FiledRight(blocks2, lists, bi);
    hide FiledAs, KindOf;
    assert forall b :: 0 <= b < |blocks2| ==> blocks2[b].trial == blocks1[b].trial;
  }

  /** Where the empty slot `e` is on the ring of its block. */
  lemma BeforePop(arr: seq<Node>, blocks: seq<BlockInfo>, rings: seq<seq<int>>, e: int) returns (k: nat)
    requires RingsOk(arr, blocks, rings) && Free(arr, e)
    ensures Block(e) < |rings| && |rings| == |blocks|
    ensures var r := rings[Block(e)];
            && k < |r| && r[k] == e
            && blocks[Block(e)].num == |r| + (if Block(e) == 0 then 1 else 0)
            && blocks[Block(e)].ehead == r[0]
            && 0 < -arr[e].base < |arr| && 0 < -arr[e].check < |arr|
            && blocks[Block(e)].num >= (if Block(e) == 0 then 2 else 1)
            && (e == r[0] <==> k == 0)
            && -arr[e].check == r[NextIndex(|r|, k)]
  {
    FreeOnRing(arr, blocks, rings, e);
    var r := rings[Block(e)];
    k :| 0 <= k < |r| && r[k] == e;
    assert RingOf(arr, Block(e), r) && Counted(Block(e), blocks[Block(e)], r);
    assert arr[r[k]] == Node(-r[PrevIndex(|r|, k)], -r[NextIndex(|r|, k)]);
  }

  /** Filling the empty slot `e` keeps the rings. */
  lemma AfterPop(arr: seq<Node>, blocks: seq<BlockInfo>, rings: seq<seq<int>>, e: int, k: nat, n: Node,
                 arr': seq<Node>, blocks': seq<BlockInfo>)
    requires RingsOk(arr, blocks, rings) && Free(arr, e) && n.check >= 0
    requires Block(e) < |rings| == |blocks| && k < |rings[Block(e)]| && rings[Block(e)][k] == e
    requires 0 <= -arr[e].base < |arr| && 0 <= -arr[e].check < |arr|
    requires var b := blocks[Block(e)];
             if b.num == 1 then arr' == arr[e := n] && blocks' == blocks[Block(e) := b.(num := 0)]
             else && arr' == Bypassed(arr, e)[e := n]
                  && blocks' == blocks[Block(e) :=
                       b.(num := b.num - 1, ehead := if k == 0 then -arr[e].check else b.ehead)]
    ensures RingsOk(arr', blocks', rings[Block(e) := Without(rings[Block(e)], k)])
    ensures arr'[e] == n
    ensures forall s :: Free(arr', s) <==> Free(arr, s) && s != e
    ensures SameExcept(arr, arr', -1)
  {
    var bi := Block(e);
    var r := rings[bi];
    var q := Without(r, k);
    assert RingOf(arr, bi, r) && Counted(bi, blocks[bi], r);
    PopFrame(arr, bi, r, k, n, arr');
    PoppedRing(arr, bi, blocks[bi].num, r, k, n, arr');
    assert Counted(bi, blocks'[bi], q) by {
      HeadAfterPop(arr, bi, r, k);
      hide RingOf, Bypassed;
    }
    assert |blocks'| == |blocks| && forall b :: 0 <= b < |blocks| && b != bi ==> blocks'[b] == blocks[b];
    hide RingOf, Counted, Bypassed, Without, SameExcept;
    OneRingChanged(arr, blocks, rings, bi, q, arr', blocks');
  }

  lemma PoppedRing(arr: seq<Node>, bi: nat, num: int, r: seq<int>, k: nat, n: Node, arr': seq<Node>)
    requires RingOf(arr, bi, r) && k < |r| && n.check >= 0
    requires num == |r| + (if bi == 0 then 1 else 0)
    requires 0 <= -arr[r[k]].base < |arr| && 0 <= -arr[r[k]].check < |arr|
    requires arr' == if num == 1 then arr[r[k] := n] else Bypassed(arr, r[k])[r[k] := n]
    ensures RingOf(arr', bi, Without(r, k))
  {
    if num == 1 {
      PopLastKeepsRing(arr, bi, r, n);
      assert Without(r, k) == [];
    } else {
      PopKeepsRing(arr, bi, r, k, n);
    }
  }

  lemma PopFrame(arr: seq<Node>, bi: nat, r: seq<int>, k: nat, n: Node, arr': seq<Node>)
    requires RingOf(arr, bi, r) && k < |r| && n.check >= 0
    requires 0 <= -arr[r[k]].base < |arr| && 0 <= -arr[r[k]].check < |arr|
    requires arr' == arr[r[k] := n] || arr' == Bypassed(arr, r[k])[r[k] := n]
    ensures |arr'| == |arr| && arr'[r[k]] == n
    ensures forall s :: Free(arr', s) <==> Free(arr, s) && s != r[k]
    ensures SameExcept(arr, arr', -1)
    ensures forall s :: 0 <= s < |arr| && Block(s) != bi ==> arr'[s] == arr[s]
  {
    BypassedFrame(arr, r, k);
    assert forall s :: s in r ==> Free(arr, s) && Block(s) == bi;
    assert r[k] in r;
    hide Bypassed, RingOf;
  }

  lemma HeadAfterPop(arr: seq<Node>, bi: nat, r: seq<int>, k: nat)
    requires RingOf(arr, bi, r) && k < |r|
    ensures Without(r, k) != [] ==> Without(r, k)[0] == if k == 0 then -arr[r[k]].check else r[0]
  {
    assert arr[r[k]] == Node(-r[PrevIndex(|r|, k)], -r[NextIndex(|r|, k)]);
  }

  /** The array grew by empty slots. */
  ghost predicate Extends(arr: seq<Node>, arr': seq<Node>) {
    && |arr| <= |arr'|
    && (forall s :: 0 <= s < |arr| ==> arr'[s] == arr[s])
    && (forall s :: |arr| <= s < |arr'| ==> Free(arr', s))
  }

  /** The array grew by 256 slots, each linked to the next and the last to the first. */
  ghost predicate ExtendedByRing(arr: seq<Node>, arr': seq<Node>) {
    && |arr'| == |arr| + 256
    && (forall s :: 0 <= s < |arr| ==> arr'[s] == arr[s])
    && (forall s :: |arr| <= s < |arr'| ==>
          arr'[s] == Node(if s == |arr| then -(|arr| + 255) else -(s - 1),
                          if s == |arr| + 255 then -|arr| else -(s + 1)))
  }

  const NEW_BLOCK := BlockInfo(0, 0, 256, 257, 0, 0)

  /** A block of empty slots in a ring of their own extends the rings. */
  lemma BlockAdded(arr: seq<Node>, blocks: seq<BlockInfo>, rings: seq<seq<int>>, arr': seq<Node>, info: BlockInfo)
    requires RingsOk(arr, blocks, rings) && ExtendedByRing(arr, arr')
    requires info.num == 256 && info.ehead == |arr|
    ensures RingsOk(arr', blocks + [info], rings + [Run(|arr|, 256)])
    ensures Extends(arr, arr') && |arr'| == |arr| + 256
  {
    var rings' := rings + [Run(|arr|, 256)];
    forall b | 0 <= b < |rings|
      ensures RingOf(arr', b, rings[b]) && Counted(b, blocks[b], rings[b])
    {
      assert RingOf(arr, b, rings[b]);
      hide RingOf;
      RingElsewhere(arr, b, rings[b], arr');
    }
    RunIsRing(arr', |blocks|, |arr|, 256);
    hide RingOf;
  }

  /** Before the new last block is filed. */
  lemma BlockToFile(blocks: seq<BlockInfo>, lists: map<Kind, seq<int>>, info: BlockInfo)
    requires ListsOk(blocks, lists) && |blocks| >= 1
    ensures forall k: Kind :: k in lists && Circular(blocks + [info], lists[k]) && |blocks| !in lists[k]
    ensures Head(lists[Open]) == 0 <==> lists[Open] == []
  {
    forall k: Kind
      ensures Circular(blocks + [info], lists[k])
    {
      CircularElsewhere(blocks, lists[k], blocks + [info]);
    }
    BlockZero(blocks, lists, -1, Full, Open);
    EmptyHead(lists[Open]);
    hide Circular;
  }

  lemma BlockFiled(blocks: seq<BlockInfo>, lists: map<Kind, seq<int>>, info: BlockInfo, blocks': seq<BlockInfo>)
    requires ListsOk(blocks, lists) && |blocks| >= 1 && info.num == 256 && info.trial == 0
    requires SameStock(blocks + [info], blocks')
    requires forall b :: 0 <= b < |blocks| && b !in lists[Open] ==> blocks'[b] == blocks[b]
    requires Circular(blocks', [|blocks|] + lists[Open])
    ensures ListsOk(blocks', lists[Open := [|blocks|] + lists[Open]])
  {
    var lists' := lists[Open := [|blocks|] + lists[Open]];
    forall k: Kind
      ensures Circular(blocks', lists'[k])
    {
      if k != Open {
        assert forall b :: b in lists[k] ==> b !in lists[Open] && 0 <= b < |blocks|;
        CircularElsewhere(blocks, lists[k], blocks');
      }
    }
    hide Circular;
    BlockFiledMembers(blocks, lists, info, blocks');
  }

  lemma BlockFiledMembers(blocks: seq<BlockInfo>, lists: map<Kind, seq<int>>, info: BlockInfo, blocks': seq<BlockInfo>)
    requires ListsOk(blocks, lists) && |blocks| >= 1 && info.num == 256 && info.trial == 0
    requires SameStock(blocks + [info], blocks')
    ensures forall k: Kind, b {:trigger b in lists[Open := [|blocks|] + lists[Open]][k]} ::
              b in lists[Open := [|blocks|] + lists[Open]][k] <==> 0 <= b < |blocks'| && KindOf(b, blocks'[b]) == k
    ensures Trials(blocks')
  {
    hide Circular;
    assert forall b :: 0 <= b < |blocks| ==> KindOf(b, blocks'[b]) == KindOf(b, blocks[b]);
    assert KindOf(|blocks|, blocks'[|blocks|]) == Open;
    hide KindOf;
  }

  /** The head of a list of blocks with empty slots offers one. */
  lemma HeadOffers(arr: seq<Node>, blocks: seq<BlockInfo>, rings: seq<seq<int>>, lists: map<Kind, seq<int>>, kind: Kind)
    requires RingsOk(arr, blocks, rings) && ListsOk(blocks, lists) && kind != Full
    requires Head(lists[kind]) != 0
    ensures var b := Head(lists[kind]);
            && 0 < b < |blocks| && rings[b] != [] && blocks[b].ehead == rings[b][0]
            && Free(arr, rings[b][0]) && Block(rings[b][0]) == b
  {
    var b := Head(lists[kind]);
    assert b in lists[kind];
    hide Circular;
    assert 0 <= b < |blocks| && KindOf(b, blocks[b]) == kind;
    assert Counted(b, blocks[b], rings[b]) && RingOf(arr, b, rings[b]);
    assert rings[b][0] in rings[b];
  }

  ghost predicate HeadsOk(lists: map<Kind, seq<int>>, headF: int, headC: int, headO: int) {
    && (forall k: Kind :: k in lists)
    && headF == Head(lists[Full])
    && headC == Head(lists[Closed])
    && headO == Head(lists[Open])
  }

  lemma HeadsAfterFiling(lists: map<Kind, seq<int>>, headF: int, headC: int, headO: int, bi: int)
    requires HeadsOk(lists, headF, headC, headO)
    ensures HeadsOk(lists[Open := [bi] + lists[Open]], headF, headC, bi)
  {
  }

  lemma GrownByBlanks(ninfo: seq<NInfo>, n: nat)
    ensures Grown(ninfo, ninfo + seq(n, _ => NO_INFO))
  {
  }

  /** What emptying slot `e` finds: the head of the ring and its successor. */
  lemma BeforePush(arr: seq<Node>, blocks: seq<BlockInfo>, rings: seq<seq<int>>, e: int)
    requires RingsOk(arr, blocks, rings) && InUse(arr, e) && e != 0
    ensures |rings| == |blocks| && Block(e) < |blocks|
    ensures var bi := Block(e);
            var b, r := blocks[bi], rings[bi];
            && b.num == |r| + (if bi == 0 then 1 else 0)
            && |r| < 256 && b.num < 256
            && (r != [] ==> && b.ehead == r[0] && 0 < b.ehead < |arr|
                            && -arr[b.ehead].check == r[NextIndex(|r|, 0)] && 0 < -arr[b.ehead].check < |arr|)
  {
    var bi := Block(e);
    var b, r := blocks[bi], rings[bi];
    assert RingOf(arr, bi, r) && Counted(bi, b, r);
    if r == [] {
      PushFirstKeepsRing(arr, bi, e);
      RingSize(arr[e := Node(-e, -e)], bi, [e]);
    } else {
      PushKeepsRing(arr, bi, r, e);
      RingSize(Spliced(arr, e, r[0], r[NextIndex(|r|, 0)]), bi, Inserted(r, e));
      assert 0 < r[NextIndex(|r|, 0)] < |arr|;
    }
  }

  /** The ring of a block after slot `e` joined it. */
  function Joined(r: seq<int>, e: int): seq<int> {
    if r == [] then [e] else Inserted(r, e)
  }

  /** Emptying slot `e` keeps the rings. */
  lemma AfterPush(arr: seq<Node>, blocks: seq<BlockInfo>, rings: seq<seq<int>>, e: int,
                  arr': seq<Node>, blocks': seq<BlockInfo>)
    requires RingsOk(arr, blocks, rings) && InUse(arr, e) && e != 0
    requires Block(e) < |rings| && |rings| == |blocks| && (Block(e) == 0 ==> rings[0] != [])
    requires var b := blocks[Block(e)];
             if b.num == 0 then arr' == arr[e := Node(-e, -e)]
             else && 0 <= b.ehead < |arr| && 0 <= -arr[b.ehead].check < |arr|
                  && arr' == Spliced(arr, e, b.ehead, -arr[b.ehead].check)
    requires |blocks'| == |blocks| && blocks'[Block(e)].num == blocks[Block(e)].num + 1
    requires blocks'[Block(e)].ehead == if blocks[Block(e)].num == 0 then e else blocks[Block(e)].ehead
    requires forall b :: 0 <= b < |blocks| && b != Block(e) ==>
               blocks'[b].num == blocks[b].num && blocks'[b].ehead == blocks[b].ehead
    ensures RingsOk(arr', blocks', rings[Block(e) := Joined(rings[Block(e)], e)])
    ensures Freed(arr, arr', e)
  {
    var bi := Block(e);
    var r := rings[bi];
    assert RingOf(arr, bi, r) && Counted(bi, blocks[bi], r);
    PushedRing(arr, bi, r, e, arr');
    hide RingOf, Spliced;
    OneRingChanged(arr, blocks, rings, bi, Joined(r, e), arr', blocks');
  }

  /** Slot `e` became empty; the slots in use are kept. */
  ghost predicate Freed(arr: seq<Node>, arr': seq<Node>, e: int) {
    && |arr'| == |arr|
    && Free(arr', e)
    && (forall s :: InUse(arr', s) <==> InUse(arr, s) && s != e)
    && (forall s :: InUse(arr', s) ==> arr'[s] == arr[s])
  }

  lemma PushedRing(arr: seq<Node>, bi: nat, r: seq<int>, e: int, arr': seq<Node>)
    requires RingOf(arr, bi, r) && InUse(arr, e) && e != 0 && Block(e) == bi
    requires if r == [] then arr' == arr[e := Node(-e, -e)]
             else && 0 < r[0] < |arr| && 0 <= -arr[r[0]].check < |arr|
                  && arr' == Spliced(arr, e, r[0], -arr[r[0]].check)
    ensures RingOf(arr', bi, Joined(r, e)) && Freed(arr, arr', e)
    ensures forall s :: 0 <= s < |arr| && Block(s) != bi ==> arr'[s] == arr[s]
  {
    hide Spliced, Inserted, NextIndex, RingOf, Block;
    if r == [] {
      PushFirstKeepsRing(arr, bi, e);
    } else {
      PushKeepsRing(arr, bi, r, e);
      RingFacts(arr, bi, r);
      SplicedFrame(arr, r, e);
      FreedOnRing(arr, bi, r, e, arr');
    }
  }

  lemma RingFacts(arr: seq<Node>, bi: nat, r: seq<int>)
    requires RingOf(arr, bi, r)
    ensures Linked(arr, r) && forall s :: s in r ==> Free(arr, s) && Block(s) == bi
  {
  }

  lemma FreedOnRing(arr: seq<Node>, bi: nat, r: seq<int>, e: int, arr': seq<Node>)
    requires InUse(arr, e) && e != 0 && Block(e) == bi && |arr'| == |arr|
    requires forall s :: s in r ==> Free(arr, s) && Block(s) == bi
    requires forall s :: Free(arr', s) <==> Free(arr, s) || s == e
    requires forall s :: 0 <= s < |arr| && s !in r && s != e ==> arr'[s] == arr[s]
    ensures Freed(arr, arr', e)
    ensures forall s :: 0 <= s < |arr| && Block(s) != bi ==> arr'[s] == arr[s]
  {
    hide Block;
  }

  lemma NothingTaken(arr: seq<Node>, ninfo: seq<NInfo>)
    ensures Extends(arr, arr) && Grown(ninfo, ninfo)
  {
  }

  lemma BlankExtended(arr: seq<Node>, ninfo: seq<NInfo>, arr': seq<Node>, ninfo': seq<NInfo>)
    requires Blank(arr, ninfo) && Extends(arr, arr') && Grown(ninfo, ninfo')
    requires |arr'| - |arr| == |ninfo'| - |ninfo|
    ensures Blank(arr', ninfo')
  {
  }

  lemma AfterOccupy(arr: seq<Node>, arr1: seq<Node>, arr2: seq<Node>, e: int, ninfo: seq<NInfo>)
    requires Extends(arr, arr1) && Free(arr1, e) && |arr2| == |arr1|
    requires forall s :: Free(arr2, s) <==> Free(arr1, s) && s != e
    requires SameExcept(arr1, arr2, -1) && Blank(arr1, ninfo)
    ensures Took(arr, arr2, e) && SameExcept(arr, arr2, -1) && Blank(arr2, ninfo) && ninfo[e] == NO_INFO
  {
  }

  lemma AfterRebase(arr: seq<Node>, arr2: seq<Node>, arr3: seq<Node>, e: int, from: int, ninfo: seq<NInfo>)
    requires Took(arr, arr2, e) && SameExcept(arr, arr2, -1) && Blank(arr2, ninfo) && InUse(arr, from)
    requires 0 <= from < |arr2| == |arr3| && arr3[from].check == arr2[from].check
    requires forall s :: 0 <= s < |arr2| && s != from ==> arr3[s] == arr2[s]
    ensures Took(arr, arr3, e) && SameExcept(arr, arr3, from) && Blank(arr3, ninfo)
    ensures from != e && arr2[from] == arr[from]
  {
  }

  /** Once block 0 is full its head points to a slot in use. */
  lemma StaleHead(arr: seq<Node>, blocks: seq<BlockInfo>, rings: seq<seq<int>>)
    requires RingsOk(arr, blocks, rings)
    ensures |blocks| >= 1 && |rings| == |blocks| && |arr| >= 256
    ensures rings[0] == [] ==> 0 < blocks[0].ehead < 256
  {
    assert Counted(0, blocks[0], rings[0]);
  }

  lemma BlankAfterFree(arr: seq<Node>, ninfo: seq<NInfo>, arr': seq<Node>, e: int)
    requires Blank(arr, ninfo) && Freed(arr, arr', e) && 0 <= e < |ninfo|
    ensures Blank(arr', ninfo[e := NO_INFO])
  {
  }

  /** With its base chosen so that the first label lands on `e`, a family lands on empty slots. */
  ghost predicate Fits(arr: seq<Node>, e: nat, labels: seq<byte>)
    requires labels != []
  {
    forall j :: 0 <= j < |labels| ==> Free(arr, Child(Child(e, labels[0]), labels[j]))
  }

  /** Block `b` has no place for the family: too few empty slots, given up on smaller families, or no empty slot fits. */
  ghost predicate InVain(arr: seq<Node>, blocks: seq<BlockInfo>, b: int, labels: seq<byte>)
    requires labels != []
  {
    && 0 <= b < |blocks|
    && (blocks[b].num < |labels| || blocks[b].reject <= |labels| ||
        forall s :: Free(arr, s) && Block(s) == b ==> !Fits(arr, s, labels))
  }

  /** The counts and reject bounds of all blocks but those in `tried` are the same. */
  ghost predicate StockKept(blocks: seq<BlockInfo>, blocks': seq<BlockInfo>, tried: seq<int>) {
    && |blocks'| == |blocks|
    && forall b :: 0 <= b < |blocks| && b !in tried ==>
         blocks'[b].num == blocks[b].num && blocks'[b].reject == blocks[b].reject
  }

  /** Of the open blocks `all`, those in `tried` were tried in vain and those in `left` are still to be tried. */
  ghost predicate Tried(arr: seq<Node>, blocks: seq<BlockInfo>, all: seq<int>, blocks': seq<BlockInfo>,
                        left: seq<int>, tried: seq<int>, labels: seq<byte>)
    requires labels != []
  {
    && all == tried + left && Distinct(all) && StockKept(blocks, blocks', tried)
    && forall b :: b in tried ==> InVain(arr, blocks, b, labels)
  }

  /** Where a family was placed: the base `base` puts a single child on the slot that heads the ring of the first
      closed block, or else of the first open block, or else on the first slot of a new block.  A larger family goes to
      an open block, or to a new one when every open block was tried in vain.  `size` is the size afterwards. */
  ghost predicate Placed(arr: seq<Node>, blocks: seq<BlockInfo>, lists: map<Kind, seq<int>>, labels: seq<byte>,
                         size: int, base: nat)
  {
    && labels != [] && Closed in lists && Open in lists
    && if |labels| == 1 then
         var e, q := Child(base, labels[0]), if lists[Closed] != [] then lists[Closed] else lists[Open];
         if q == [] then size == |arr| + 256 && e == |arr|
         else size == |arr| && 0 <= q[0] < |blocks| && e == blocks[q[0]].ehead
       else if size == |arr| then Block(base) in lists[Open]
       else size == |arr| + 256 && Block(base) == |blocks| &&
            forall b :: b in lists[Open] ==> InVain(arr, blocks, b, labels)
  }

  lemma UsedKept(arr: seq<Node>, arr': seq<Node>, s: int)
    requires SameExcept(arr, arr', -1) && InUse(arr, s)
    ensures 0 <= s < |arr'| && arr'[s] == arr[s]
  {
  }

  lemma NoneTried(arr: seq<Node>, blocks: seq<BlockInfo>, all: seq<int>, labels: seq<byte>)
    requires Circular(blocks, all) && labels != []
    ensures Tried(arr, blocks, all, blocks, all, [], labels)
  {
    assert all == [] + all;
  }

  lemma OneMoreTried(arr: seq<Node>, blocks: seq<BlockInfo>, all: seq<int>, blocks1: seq<BlockInfo>, left: seq<int>,
                     tried: seq<int>, labels: seq<byte>, blocks2: seq<BlockInfo>)
    requires labels != [] && Tried(arr, blocks, all, blocks1, left, tried, labels)
    requires left != [] && InVain(arr, blocks1, left[0], labels) && StockKept(blocks1, blocks2, [left[0]])
    ensures Tried(arr, blocks, all, blocks2, left[1..], tried + [left[0]], labels)
  {
    hide Fits;
    var b, n := left[0], |tried|;
    assert all[n] == b;
    assert b !in tried by {
      assert forall i :: 0 <= i < n ==> all[i] == tried[i];
    }
    assert InVain(arr, blocks, b, labels);
    assert all == (tried + [b]) + left[1..];
  }

  lemma TriedAll(arr: seq<Node>, blocks: seq<BlockInfo>, all: seq<int>, blocks': seq<BlockInfo>,
                 left: seq<int>, tried: seq<int>, labels: seq<byte>)
    requires labels != [] && Tried(arr, blocks, all, blocks', left, tried, labels)
    ensures all == tried + left && Distinct(all) && |blocks'| == |blocks|
    ensures forall b :: b in tried ==> InVain(arr, blocks, b, labels)
    ensures left == [] ==> all == tried
    ensures left != [] ==> left[0] in all
  {
    hide InVain, Distinct;
  }

  lemma FirstOfNew(arr: seq<Node>, arr': seq<Node>, bi: nat)
    requires Extends(arr, arr') && |arr| == 256 * bi < |arr'| && bi >= 1
    ensures Free(arr', 256 * bi) && Block(256 * bi) == bi
  {
  }

  lemma OpenList(blocks: seq<BlockInfo>, lists: map<Kind, seq<int>>, headF: int, headC: int, headO: int)
    requires ListsOk(blocks, lists) && HeadsOk(lists, headF, headC, headO)
    ensures Open in lists && Circular(blocks, lists[Open]) && (headO == 0 <==> lists[Open] == [])
    ensures lists[Open] != [] ==> headO == lists[Open][0] && 0 <= headO < |blocks|
    ensures Closed in lists && (headC == 0 <==> lists[Closed] == [])
    ensures lists[Closed] != [] ==> headC == lists[Closed][0] && 0 <= headC < |blocks|
  {
    EmptyHead(lists[Open]);
    EmptyHead(lists[Closed]);
    hide Circular;
    if lists[Open] != [] {
      assert lists[Open][0] in lists[Open];
    }
    if lists[Closed] != [] {
      assert lists[Closed][0] in lists[Closed];
    }
  }

  lemma ChildInRange(arr: seq<Node>, blocks: seq<BlockInfo>, base: nat, l: byte)
    requires |arr| == 256 * |blocks| && base < |arr|
    ensures Child(base, l) < |arr|
    ensures Block(base) >= 1 ==> Child(base, l) >= 256
  {
    hide Child;
    assert Block(Child(base, l)) == Block(base);
  }

  /** The ring of a block that counts empty slots starts at its head and misses none. */
  lemma RingOfBlock(arr: seq<Node>, blocks: seq<BlockInfo>, rings: seq<seq<int>>, bi: nat)
    requires RingsOk(arr, blocks, rings) && 0 < bi < |blocks| && blocks[bi].num > 0
    ensures |rings| == |blocks| && rings[bi] != [] && blocks[bi].ehead == rings[bi][0]
    ensures forall s :: Free(arr, s) && Block(s) == bi ==> s in rings[bi]
  {
    assert RingOf(arr, bi, rings[bi]) && Counted(bi, blocks[bi], rings[bi]);
  }

  /** Following `check` from an element leads to the next one on the ring. */
  lemma RingStep(arr: seq<Node>, blocks: seq<BlockInfo>, rings: seq<seq<int>>, bi: nat, t: nat)
    requires RingsOk(arr, blocks, rings) && bi < |rings| && t < |rings[bi]|
    ensures var r := rings[bi];
            && 0 < r[t] < |arr| && Free(arr, r[t]) && Block(r[t]) == bi
            && -arr[r[t]].check == (if t + 1 < |r| then r[t + 1] else r[0])
            && (t + 1 < |r| ==> r[t + 1] != r[0])
  {
    var r := rings[bi];
    assert RingOf(arr, bi, r);
    assert r[t] in r;
    assert arr[r[t]] == Node(-r[PrevIndex(|r|, t)], -r[NextIndex(|r|, t)]);
  }

  /** The head of a ring may be moved to any of its elements. */
  lemma HeadMoved(arr: seq<Node>, blocks: seq<BlockInfo>, rings: seq<seq<int>>, bi: nat, t: nat, blocks': seq<BlockInfo>)
    requires RingsOk(arr, blocks, rings) && bi < |rings| && t < |rings[bi]|
    requires blocks' == blocks[bi := blocks[bi].(ehead := rings[bi][t])]
    ensures RingsOk(arr, blocks', rings[bi := Rotated(rings[bi], t)])
  {
    var r := rings[bi];
    assert RingOf(arr, bi, r) && Counted(bi, blocks[bi], r);
    RotatedKeepsRing(arr, bi, r, t);
    RotatedAt(r, t, 0);
    hide RingOf, Rotated;
    OneRingChanged(arr, blocks, rings, bi, Rotated(r, t), arr, blocks');
  }

  /** The lists do not see the ring heads and the reject bounds. */
  lemma ListsSameKinds(blocks: seq<BlockInfo>, lists: map<Kind, seq<int>>, bi: int, blocks': seq<BlockInfo>)
    requires ListsOk(blocks, lists) && 0 <= bi < |blocks| == |blocks'|
    requires blocks' == blocks[bi := blocks[bi].(ehead := blocks'[bi].ehead, reject := blocks'[bi].reject)]
    ensures ListsOk(blocks', lists)
  {
    FiledUnder(blocks, lists, bi, blocks');
    FiledRight(blocks', lists, bi);
    hide FiledAs;
  }

  /** A block of the open list has slots to offer and has not been given up. */
  lemma OpenBlock(arr: seq<Node>, blocks: seq<BlockInfo>, rings: seq<seq<int>>,
                  lists: map<Kind, seq<int>>, headF: int, headC: int, headO: int)
    requires RingsOk(arr, blocks, rings) && ListsOk(blocks, lists) && HeadsOk(lists, headF, headC, headO) && headO != 0
    ensures lists[Open] != [] && headO == lists[Open][0] && 0 < headO < |blocks|
    ensures blocks[headO].num >= 2 && blocks[headO].trial == 0
    ensures blocks[headO].prev == lists[Open][|lists[Open]| - 1]
    ensures blocks[headO].next == lists[Open][NextIndex(|lists[Open]|, 0)]
    ensures headO == lists[Open][|lists[Open]| - 1] <==> |lists[Open]| == 1
  {
    var q := lists[Open];
    assert q[0] in q;
    assert Counted(headO, blocks[headO], rings[headO]);
    assert Circular(blocks, q);
    assert blocks[q[0]].prev == q[PrevIndex(|q|, 0)] && blocks[q[0]].next == q[NextIndex(|q|, 0)];
  }

  /** An open block that failed once is given up. */
  lemma GivenUp(blocks: seq<BlockInfo>, lists: map<Kind, seq<int>>, bi: int, blocks': seq<BlockInfo>)
    requires ListsOk(blocks, lists) && 0 < bi < |blocks| == |blocks'|
    requires blocks[bi].num >= 2 && blocks[bi].trial == 0
    requires blocks' == blocks[bi := blocks[bi].(reject := blocks'[bi].reject, trial := 1)]
    ensures MayTransfer(blocks', lists, bi, Open, Closed) && Trials(blocks') && KindOf(bi, blocks'[bi]) == Closed
  {
    FiledUnder(blocks, lists, bi, blocks');
    hide FiledAs;
  }

  lemma BlockCount(arr: seq<Node>, blocks: seq<BlockInfo>, rings: seq<seq<int>>, bi: nat)
    requires RingsOk(arr, blocks, rings) && bi < |blocks|
    ensures 0 <= blocks[bi].num <= 256
  {
    assert RingOf(arr, bi, rings[bi]) && Counted(bi, blocks[bi], rings[bi]);
    RingSize(arr, bi, rings[bi]);
  }

  /** Every family fits a new block. */
  lemma NewBlockFits(arr: seq<Node>, arr': seq<Node>, blocks: seq<BlockInfo>, bi: nat, labels: seq<byte>)
    requires Extends(arr, arr') && |arr| == 256 * bi && |arr'| == |arr| + 256 && bi >= 1 && labels != []
    requires |arr'| == 256 * |blocks|
    ensures Block(256 * bi) == bi && Fits(arr', 256 * bi, labels)
  {
    hide Child;
    var base := Child(256 * bi, labels[0]);
    forall j | 0 <= j < |labels|
      ensures Free(arr', Child(base, labels[j]))
    {
      ChildInRange(arr', blocks, 256 * bi, labels[0]);
      ChildInRange(arr', blocks, base, labels[j]);
      assert Block(Child(base, labels[j])) == bi;
    }
  }

  lemma NewBlockCounts()
    ensures NEW_BLOCK.num == 256 && NEW_BLOCK.trial == 0
  {
  }

  lemma BlankSize(arr: seq<Node>, ninfo: seq<NInfo>)
    requires Blank(arr, ninfo)
    ensures |ninfo| == |arr|
  {
  }

  lemma UsedInRange(arr: seq<Node>, e: int)
    requires InUse(arr, e)
    ensures 0 <= e < |arr|
  {
  }

  lemma BlocksCover(arr: seq<Node>, blocks: seq<BlockInfo>, rings: seq<seq<int>>)
    requires RingsOk(arr, blocks, rings)
    ensures |arr| == 256 * |blocks| && |blocks| >= 1
  {
  }

  lemma FitsAlone(arr: seq<Node>, e: nat, labels: seq<byte>)
    requires |labels| == 1 && Free(arr, e)
    ensures Fits(arr, e, labels)
  {
    ChildCancels(e, labels[0]);
    hide Child;
  }

  lemma PlaceChosen(arr: seq<Node>, blocks: seq<BlockInfo>, rings: seq<seq<int>>, e: nat, labels: seq<byte>)
    requires RingsOk(arr, blocks, rings) && labels != [] && Block(e) >= 1 && Fits(arr, e, labels)
    ensures 256 <= Child(e, labels[0]) < |arr|
    ensures forall j :: 0 <= j < |labels| ==> Free(arr, Child(Child(e, labels[0]), labels[j]))
  {
    ChildCancels(e, labels[0]);
    assert Free(arr, Child(Child(e, labels[0]), labels[0]));
    ChildInRange(arr, blocks, e, labels[0]);
    hide Child, RingsOk;
  }

  /** Every block is in exactly one list: block 0 in the full one, another block in the one its counters call for. */
  lemma FiledOnce(blocks: seq<BlockInfo>, lists: map<Kind, seq<int>>, headF: int, headC: int, headO: int, b: nat)
    requires ListsOk(blocks, lists) && HeadsOk(lists, headF, headC, headO) && b < |blocks|
    ensures b in lists[Full] <==> b == 0 || blocks[b].num == 0
    ensures b in lists[Closed] <==> b != 0 && (blocks[b].num == 1 || (blocks[b].num != 0 && blocks[b].trial == MAX_TRIAL))
    ensures b in lists[Open] <==> b != 0 && blocks[b].num != 0 && blocks[b].num != 1 && blocks[b].trial != MAX_TRIAL
    ensures 0 in lists[Full] && (headC == 0 <==> lists[Closed] == []) && (headO == 0 <==> lists[Open] == [])
  {
    hide Circular;
    EmptyHead(lists[Closed]);
    EmptyHead(lists[Open]);
  }
}
