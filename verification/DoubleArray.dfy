/** The updatable double-array trie. */
module DoubleArrays {
  import opened Slots
  import opened Cells
  import opened Rings
  import opened Lists
  import opened Allocator
  import opened Layouts
  import opened Relocation
  import opened Growth
  import opened Dictionary
  import opened Enumeration
  import opened Lookups
  import opened Walking
  import opened Pruning
  import opened Erasure

  class DoubleArray {
    var arr: seq<Node>
    var ninfo: seq<NInfo>
    var blocks: seq<BlockInfo>
    var headF: int
    var headC: int
    var headO: int
    var reject: seq<int>

    /** The ring of empty slots of each block, from `ehead` on. */
    ghost var rings: seq<seq<int>>
    /** The three lists of blocks, from their heads on. */
    ghost var lists: map<Kind, seq<int>>
    /** The tree the slots in use spell out. */
    ghost var layout: Layout
    /** The entries stored. */
    ghost var dict: map<Key, int>

    /** The allocator's invariant. */
    ghost predicate AllocOk()
      reads `arr, `blocks, `headF, `headC, `headO, `reject, `rings, `lists
    {
      && RingsOk(arr, blocks, rings)
      && ListsOk(blocks, lists)
      && HeadsOk(lists, headF, headC, headO)
      && |reject| == 257
    }

    lemma AllocFacts()
      requires AllocOk()
      ensures RingsOk(arr, blocks, rings) && ListsOk(blocks, lists) && HeadsOk(lists, headF, headC, headO)
      ensures |arr| == 256 * |blocks| && |arr| % 256 == 0 && |blocks| >= 1
    {
      hide ListsOk, HeadsOk, RingsOk;
      BlocksCover(arr, blocks, rings);
    }

    /** The invariant between operations. */
    ghost predicate Valid()
      reads this
    {
      && AllocOk() && Blank(arr, ninfo)
      && TreeOk(arr, ninfo, layout, 0, {})
      && Represents(arr, layout, dict)
      && Fruitful(layout, Root)
    }

    /** An empty double array: the root and block 0, whose other slots are empty. */
    constructor ()
      ensures Valid() && dict == map[]
      ensures InitialSlots(arr) && ninfo == seq(256, _ => NO_INFO)
      ensures blocks == [BlockInfo(0, 0, 256, 257, 0, 1)] && reject == seq(257, i => i + 1)
    {
      var a := InitialArray();
      arr := a;
      ninfo := seq(256, _ => NO_INFO);
      blocks := [BlockInfo(0, 0, 256, 257, 0, 1)];
      headF, headC, headO := 0, 0, 0;
      reject := seq(257, i => i + 1);
      rings := [Run(1, 255)];
      lists := map[Full := [0], Closed := [], Open := []];
      layout := Layout(map[Root := 0], map[0 := Root], map[Root := [0]]);
      dict := map[];
      new;
      InitialRings(arr, blocks);
      InitialLists(blocks, lists);
      InitialTree(arr, ninfo, layout);
      hide TreeOk, RingsOk, ListsOk;
    }

    /** The slots of block 0: the root, and the others linked to a ring. */
    static method InitialArray() returns (a: seq<Node>)
      ensures InitialSlots(a)
    {
      a := [Node(0, -1)];
      var i := 1;
      while i < 256
        invariant 1 <= i <= 256 && |a| == i && a[0] == Node(0, -1)
        invariant forall s :: 1 <= s < i ==> a[s] == Node(if s == 1 then -255 else -(s - 1), if s == 255 then -1 else -(s + 1))
      {
        a := a + [Node(if i == 1 then -255 else -(i - 1), if i == 255 then -1 else -(i + 1))];
        i := i + 1;
      }
    }

    /** Takes `bi` out of the list `q` headed by `headIn`. */
    method PopBlock(bi: int, headIn: int, last: bool, ghost q: seq<int>, ghost k: nat) returns (head: int)
      requires Circular(blocks, q) && k < |q| && q[k] == bi
      requires headIn == q[0] && last == (|q| == 1)
      modifies `blocks
      ensures Circular(blocks, Without(q, k)) && head == Head(Without(q, k))
      ensures SameStock(old(blocks), blocks)
      ensures forall b :: 0 <= b < |blocks| && b !in q ==> blocks[b] == old(blocks)[b]
    {
      head := headIn;
      if last {
        head := 0;
        assert Without(q, k) == [];
      } else {
        UnlinkedFrame(blocks, q, k);
        UnlinkedIsCircular(blocks, q, k);
        var b := blocks[bi];
        blocks := blocks[b.prev := blocks[b.prev].(next := b.next)];
        blocks := blocks[b.next := blocks[b.next].(prev := b.prev)];
        assert blocks == Unlinked(old(blocks), bi);
        if bi == headIn {
          head := b.next;
        }
        HeadWithout(old(blocks), q, k);
        hide Circular, Unlinked, Without, SameStock;
      }
    }

    /** Puts `bi` in front of the list `q` headed by `headOut`. */
    method PushBlock(bi: int, headOut: int, empty: bool, ghost q: seq<int>) returns (head: int)
      requires Circular(blocks, q) && bi !in q && 0 <= bi < |blocks|
      requires headOut == Head(q) && empty == (q == [])
      modifies `blocks
      ensures Circular(blocks, [bi] + q) && head == bi
      ensures SameStock(old(blocks), blocks)
      ensures forall b :: 0 <= b < |blocks| && b !in q && b != bi ==> blocks[b] == old(blocks)[b]
    {
      head := bi;
      if empty {
        blocks := blocks[bi := blocks[bi].(prev := bi, next := bi)];
      } else {
        FrontedIsCircular(blocks, q, bi);
        var tail := blocks[headOut].prev;
        blocks := blocks[bi := blocks[bi].(prev := tail, next := headOut)];
        blocks := blocks[tail := blocks[tail].(next := bi)];
        blocks := blocks[headOut := blocks[headOut].(prev := bi)];
        assert blocks == Fronted(old(blocks), bi, headOut);
        hide Circular, Fronted, SameStock;
      }
    }

    /** Moves `bi` from the list headed by `headIn` to the front of the list headed by `headOut`. */
    method TransferBlock(bi: int, headIn: int, headOut: int, ghost from: Kind, ghost to: Kind)
      returns (newIn: int, newOut: int)
      requires MayTransfer(blocks, lists, bi, from, to)
      requires from in lists && to in lists && headIn == Head(lists[from]) && headOut == Head(lists[to])
      modifies `blocks, `lists
      ensures FiledAs(blocks, lists, bi, to) && SameStock(old(blocks), blocks)
      ensures forall m: Kind :: m in lists && (m != from && m != to ==> lists[m] == old(lists)[m])
      ensures newIn == Head(lists[from]) && newOut == Head(lists[to])
      ensures headIn == bi ==> lists[from] == old(lists)[from][1..]
    {
      ghost var k := BeforeTransfer(blocks, lists, bi, from, to);
      ghost var qin, qout := lists[from], lists[to];
      FirstIndex(blocks, qin, k);
      hide *;
      newIn := PopBlock(bi, headIn, bi == blocks[bi].next, qin, k);
      ghost var blocks1 := blocks;
      BetweenTransfer(old(blocks), lists, bi, from, k, to, blocks1);
      newOut := PushBlock(bi, headOut, headOut == 0 && blocks[bi].num != 0, qout);
      AfterTransfer(old(blocks), lists, bi, from, k, to, blocks1, blocks);
      lists := Moved(lists, bi, from, k, to);
      HeadOfFronted(bi, qout);
    }

    /** Moves a block that lost an empty slot to the list it now belongs to. */
    method RefileDown(bi: int)
      requires DueDown(blocks, lists, bi) && HeadsOk(lists, headF, headC, headO)
      modifies `blocks, `headF, `headC, `headO, `lists
      ensures ListsOk(blocks, lists) && HeadsOk(lists, headF, headC, headO) && SameStock(old(blocks), blocks)
    {
      hide ListsOk, MayTransfer, Trials;
      if blocks[bi].num == 0 {
        if bi != 0 {
          headC, headF := TransferBlock(bi, headC, headF, Closed, Full);
          Transferred(old(blocks), blocks, lists, bi, Full);
        }
      } else if bi != 0 && blocks[bi].num == 1 && blocks[bi].trial != MAX_TRIAL {
        headO, headC := TransferBlock(bi, headO, headC, Open, Closed);
        Transferred(old(blocks), blocks, lists, bi, Closed);
      }
    }

    /** Links the ring neighbours of `e` past it, counts it off and fills it. */
    method LinkPast(e: int, filled: Node)
      requires 0 <= e < |arr| && Block(e) < |blocks|
      requires 0 <= -arr[e].base < |arr| && 0 <= -arr[e].check < |arr|
      modifies `arr, `blocks
      ensures var b, n := old(blocks[Block(e)]), old(arr[e]);
              if b.num == 1 then
                && arr == old(arr)[e := filled]
                && blocks == old(blocks)[Block(e) := b.(num := 0)]
              else
                && arr == Bypassed(old(arr), e)[e := filled]
                && blocks == old(blocks)[Block(e) :=
                     b.(num := b.num - 1, ehead := if e == b.ehead then -n.check else b.ehead)]
    {
      hide Block;
      var bi, n := Block(e), arr[e];
      blocks := blocks[bi := blocks[bi].(num := blocks[bi].num - 1)];
      if blocks[bi].num != 0 {
        arr := arr[-n.base := arr[-n.base].(check := n.check)];
        arr := arr[-n.check := arr[-n.check].(base := n.base)];
        if e == blocks[bi].ehead {
          blocks := blocks[bi := blocks[bi].(ehead := -n.check)];
        }
      }
      arr := arr[e := filled];
    }

    /** Takes the empty slot `e` off its ring and fills it with `filled`. */
    method Unring(e: int, filled: Node)
      requires RingsOk(arr, blocks, rings) && ListsOk(blocks, lists)
      requires Free(arr, e) && filled.check >= 0
      modifies `arr, `blocks, `rings
      ensures RingsOk(arr, blocks, rings) && DueDown(blocks, lists, Block(e))
      ensures |arr| == |old(arr)| && arr[e] == filled
      ensures forall s :: Free(arr, s) <==> Free(old(arr), s) && s != e
      ensures SameExcept(old(arr), arr, -1)
    {
      ghost var k := BeforePop(arr, blocks, rings, e);
      hide *;
      LinkPast(e, filled);
      CountedDown(old(blocks), lists, Block(e), blocks[Block(e)].ehead, blocks);
      AfterPop(old(arr), old(blocks), rings, e, k, filled, arr, blocks);
      rings := rings[Block(e) := Without(rings[Block(e)], k)];
    }

    /** Takes the empty slot `e` off its ring, refiles its block and fills the slot with `filled`. */
    method Occupy(e: int, filled: Node)
      requires RingsOk(arr, blocks, rings) && ListsOk(blocks, lists) && HeadsOk(lists, headF, headC, headO)
      requires Free(arr, e) && filled.check >= 0
      modifies `arr, `blocks, `headF, `headC, `headO, `rings, `lists
      ensures RingsOk(arr, blocks, rings) && ListsOk(blocks, lists) && HeadsOk(lists, headF, headC, headO)
      ensures |arr| == |old(arr)| && arr[e] == filled
      ensures forall s :: Free(arr, s) <==> Free(old(arr), s) && s != e
      ensures SameExcept(old(arr), arr, -1)
    {
      Unring(e, filled);
      ghost var blocks1 := blocks;
      hide RingsOk, ListsOk, DueDown;
      RefileDown(Block(e));
      RingsSameStock(arr, blocks1, rings, blocks);
    }

    /** Appends a block of empty slots and files it as open. */
    method AddBlock() returns (bi: int)
      requires RingsOk(arr, blocks, rings) && ListsOk(blocks, lists) && HeadsOk(lists, headF, headC, headO)
      modifies `arr, `ninfo, `blocks, `headO, `rings, `lists
      ensures RingsOk(arr, blocks, rings) && ListsOk(blocks, lists) && HeadsOk(lists, headF, headC, headO)
      ensures Extends(old(arr), arr) && Grown(old(ninfo), ninfo)
      ensures bi == |old(blocks)| && |blocks| == bi + 1
      ensures |arr| == |old(arr)| + 256 && |ninfo| == |old(ninfo)| + 256
      ensures 256 * bi == |old(arr)|
      ensures blocks[bi].ehead == |old(arr)| && blocks[bi].reject == 257
      ensures Open in old(lists) && lists == old(lists)[Open := [bi] + old(lists)[Open]]
    {
      hide RingsOk, ListsOk, Circular, Extends, Grown;
      BlocksCover(arr, blocks, rings);
      ghost var info := NEW_BLOCK.(ehead := |arr|);
      NewBlockCounts();
      bi := |blocks|;
      AppendBlock();
      ghost var blocks1 := blocks;
      BlockToFile(old(blocks), lists, info);
      HeadsAfterFiling(lists, headF, headC, headO, bi);
      headO := PushBlock(bi, headO, headO == 0, lists[Open]);
      RingsSameStock(arr, blocks1, rings, blocks);
      BlockFiled(old(blocks), lists, info, blocks);
      lists := lists[Open := [bi] + lists[Open]];
    }

    /** Appends a block of empty slots. */
    method AppendBlock()
      requires RingsOk(arr, blocks, rings)
      modifies `arr, `ninfo, `blocks, `rings
      ensures RingsOk(arr, blocks, rings)
      ensures blocks == old(blocks) + [NEW_BLOCK.(ehead := |old(arr)|)]
      ensures Extends(old(arr), arr) && Grown(old(ninfo), ninfo)
      ensures |arr| == |old(arr)| + 256 && |ninfo| == |old(ninfo)| + 256
    {
      var size := |arr|;
      var info := NEW_BLOCK.(ehead := size);
      hide *;
      NewBlockCounts();
      ExtendArray();
      GrownByBlanks(ninfo, 256);
      ninfo := ninfo + seq(256, _ => NO_INFO);
      BlockAdded(old(arr), blocks, rings, arr, info);
      rings := rings + [Run(size, 256)];
      blocks := blocks + [info];
    }

    /** Appends 256 empty slots linked to a ring. */
    method ExtendArray()
      modifies `arr
      ensures ExtendedByRing(old(arr), arr)
    {
      var size := |arr|;
      arr := arr + [Node(-(size + 255), -(size + 1))];
      var i := size + 1;
      while i < size + 255
        invariant size + 1 <= i <= size + 255 && |arr| == i
        invariant forall s :: 0 <= s < size ==> arr[s] == old(arr)[s]
        invariant forall s :: size <= s < i ==>
                    arr[s] == Node(if s == size then -(size + 255) else -(s - 1), -(s + 1))
      {
        arr := arr + [Node(-(i - 1), -(i + 1))];
        i := i + 1;
      }
      arr := arr + [Node(-(size + 254), -size)];
    }

    /** An empty slot for a single new child: closed blocks first, then open ones, then a new one. */
    method FindPlace() returns (e: int)
      requires RingsOk(arr, blocks, rings) && ListsOk(blocks, lists) && HeadsOk(lists, headF, headC, headO)
      modifies `arr, `ninfo, `blocks, `headO, `rings, `lists
      ensures RingsOk(arr, blocks, rings) && ListsOk(blocks, lists) && HeadsOk(lists, headF, headC, headO)
      ensures Extends(old(arr), arr) && Grown(old(ninfo), ninfo)
      ensures |arr| - |old(arr)| == |ninfo| - |old(ninfo)|
      ensures 0 <= e && Free(arr, e) && Block(e) >= 1
      ensures Closed in old(lists) && Open in old(lists)
      ensures old(lists)[Closed] != [] ==>
                arr == old(arr) && 0 <= old(lists)[Closed][0] < |old(blocks)| && e == old(blocks)[old(lists)[Closed][0]].ehead
      ensures old(lists)[Closed] == [] && old(lists)[Open] != [] ==>
                arr == old(arr) && 0 <= old(lists)[Open][0] < |old(blocks)| && e == old(blocks)[old(lists)[Open][0]].ehead
      ensures old(lists)[Closed] == [] && old(lists)[Open] == [] ==> |arr| == |old(arr)| + 256 && e == |old(arr)|
    {
      hide RingsOk, ListsOk, Circular, Extends, Grown;
      OpenList(blocks, lists, headF, headC, headO);
      if headC != 0 {
        HeadOffers(arr, blocks, rings, lists, Closed);
        NothingTaken(arr, ninfo);
        return blocks[headC].ehead;
      }
      if headO != 0 {
        HeadOffers(arr, blocks, rings, lists, Open);
        NothingTaken(arr, ninfo);
        return blocks[headO].ehead;
      }
      BlocksCover(arr, blocks, rings);
      var bi := AddBlock();
      FirstOfNew(old(arr), arr, bi);
      e := 256 * bi;
    }

    /** Takes an empty slot for the child of `from` under `l`: the one `base` determines,
        or any, which then determines the base of `from`. */
    method PopENode(base: int, l: byte, from: int) returns (e: int)
      requires AllocOk() && Blank(arr, ninfo) && InUse(arr, from)
      requires base >= 0 ==> Free(arr, Child(base, l))
      modifies `arr, `ninfo, `blocks, `headF, `headC, `headO, `rings, `lists
      ensures AllocOk() && Blank(arr, ninfo) && Grown(old(ninfo), ninfo)
      ensures Took(old(arr), arr, e) && Node(if l != 0 then -1 else 0, from) == arr[e] && ninfo[e] == NO_INFO
      ensures base >= 0 ==> e == Child(base, l) && SameExcept(old(arr), arr, -1)
      ensures base < 0 ==>
                && Block(e) >= 1 && SameExcept(old(arr), arr, from)
                && arr[from] == old(arr)[from].(base := Child(e, l))
      ensures Closed in old(lists) && Open in old(lists)
      ensures base >= 0 || old(lists)[Closed] != [] || old(lists)[Open] != [] ==> |arr| == |old(arr)|
      ensures base < 0 && old(lists)[Closed] != [] ==>
                0 <= old(lists)[Closed][0] < |old(blocks)| && e == old(blocks)[old(lists)[Closed][0]].ehead
      ensures base < 0 && old(lists)[Closed] == [] && old(lists)[Open] != [] ==>
                0 <= old(lists)[Open][0] < |old(blocks)| && e == old(blocks)[old(lists)[Open][0]].ehead
      ensures base < 0 && old(lists)[Closed] == [] && old(lists)[Open] == [] ==>
                |arr| == |old(arr)| + 256 && e == |old(arr)|
    {
      hide RingsOk, ListsOk, HeadsOk, Block;
      if base < 0 {
        e := FindPlace();
      } else {
        e := Child(base, l);
        OpenList(blocks, lists, headF, headC, headO);
        NothingTaken(arr, ninfo);
      }
      ghost var arr1 := arr;
      BlankExtended(old(arr), old(ninfo), arr1, ninfo);
      Occupy(e, Node(if l != 0 then -1 else 0, from));
      AfterOccupy(old(arr), arr1, arr, e, ninfo);
      if base < 0 {
        ghost var arr2 := arr;
        arr := arr[from := arr[from].(base := Child(e, l))];
        AfterRebase(old(arr), arr2, arr, e, from, ninfo);
        RingsElsewhere(arr2, blocks, rings, arr);
      }
    }

    /** Counts `e` back in and links it behind the head of its block's ring; `due` says whether
        the block had been given up or gets its second empty slot. */
    method LinkBehindHead(e: int) returns (due: bool)
      requires InUse(arr, e) && Block(e) < |blocks|
      requires var b := blocks[Block(e)];
               b.num != 0 ==> 0 <= b.ehead < |arr| && 0 <= -arr[b.ehead].check < |arr|
      modifies `arr, `blocks
      ensures var b := old(blocks)[Block(e)];
              if b.num == 0 then
                && arr == old(arr)[e := Node(-e, -e)]
                && blocks == old(blocks)[Block(e) := b.(num := 1, ehead := e)]
              else
                && arr == Spliced(old(arr), e, b.ehead, -old(arr)[b.ehead].check)
                && blocks == old(blocks)[Block(e) := b.(num := b.num + 1, trial := 0)]
                && due == (b.num + 1 == 2 || b.trial == MAX_TRIAL)
    {
      hide Block;
      var bi := Block(e);
      blocks := blocks[bi := blocks[bi].(num := blocks[bi].num + 1)];
      if blocks[bi].num == 1 {
        blocks := blocks[bi := blocks[bi].(ehead := e)];
        arr := arr[e := Node(-e, -e)];
        due := true;
      } else {
        var prev := blocks[bi].ehead;
        var next := -arr[prev].check;
        arr := arr[e := Node(-prev, -next)];
        arr := arr[next := arr[next].(base := -e)];
        arr := arr[prev := arr[prev].(check := -e)];
        due := blocks[bi].num == 2 || blocks[bi].trial == MAX_TRIAL;
        blocks := blocks[bi := blocks[bi].(trial := 0)];
      }
    }

    /** Raises the reject bound of a block to the one recorded for its number of empty slots. */
    method RaiseReject(bi: int)
      requires 0 <= bi < |blocks| && 0 <= blocks[bi].num < |reject|
      modifies `blocks
      ensures var b := old(blocks)[bi];
              blocks == old(blocks)[bi := b.(reject := if b.reject < reject[b.num] then reject[b.num] else b.reject)]
    {
      if blocks[bi].reject < reject[blocks[bi].num] {
        blocks := blocks[bi := blocks[bi].(reject := reject[blocks[bi].num])];
      }
    }

    /** Moves a block that gained an empty slot to the list it now belongs to. */
    method RefileUp(bi: int, due: bool, ghost trial: int)
      requires DueUp(blocks, lists, bi, trial) && HeadsOk(lists, headF, headC, headO)
      requires blocks[bi].num == 1 || due == (blocks[bi].num == 2 || trial == MAX_TRIAL)
      modifies `blocks, `headF, `headC, `headO, `lists
      ensures ListsOk(blocks, lists) && HeadsOk(lists, headF, headC, headO) && SameStock(old(blocks), blocks)
    {
      hide ListsOk, MayTransfer, Trials;
      if blocks[bi].num == 1 {
        if bi != 0 {
          headF, headC := TransferBlock(bi, headF, headC, Full, Closed);
          Transferred(old(blocks), blocks, lists, bi, Closed);
        }
      } else if due {
        if bi != 0 {
          headC, headO := TransferBlock(bi, headC, headO, Closed, Open);
          Transferred(old(blocks), blocks, lists, bi, Open);
        }
      }
    }

    /** Whether the slot `e` can be emptied: block 0 keeps no usable ring head once it is full. */
    ghost predicate CanFree(e: int)
      reads `rings
    {
      e > 0 && |rings| > 0 && (Block(e) == 0 ==> rings[0] != [])
    }

    /** Counts `e` back in and puts it on the ring of its block. */
    method PutBack(e: int) returns (due: bool)
      requires RingsOk(arr, blocks, rings) && ListsOk(blocks, lists) && |reject| == 257
      requires InUse(arr, e) && e != 0
      requires !CanFree(e) ==> arr[blocks[0].ehead].check == 0
      modifies `arr, `blocks, `rings
      ensures |arr| == |old(arr)| && Block(e) < |old(blocks)|
      ensures DueUp(blocks, lists, Block(e), old(blocks)[Block(e)].trial)
      ensures var b := old(blocks)[Block(e)];
              blocks[Block(e)].num == 1 || due == (blocks[Block(e)].num == 2 || b.trial == MAX_TRIAL)
      ensures |blocks| == |old(blocks)| && 0 <= Block(e) < |blocks| && 0 <= old(blocks)[Block(e)].num + 1 < |reject|
      ensures var b := old(blocks)[Block(e)];
              blocks[Block(e)].reject == if b.reject < reject[b.num + 1] then reject[b.num + 1] else b.reject
      ensures old(CanFree(e)) ==> RingsOk(arr, blocks, rings) && Freed(old(arr), arr, e)
      ensures !old(CanFree(e)) ==> arr == Spliced(old(arr), e, old(blocks)[0].ehead, 0)
      ensures Block(e) != 0 ==> |rings| > 0 && rings[0] == old(rings)[0]
    {
      BeforePush(arr, blocks, rings, e);
      StaleHead(arr, blocks, rings);
      ghost var ok := CanFree(e);
      assert ok ==> Block(e) == 0 ==> rings[0] != [];
      hide RingsOk, ListsOk, Freed, DueUp, Spliced, InUse, Block, NextIndex, CanFree;
      due := LinkBehindHead(e);
      RaiseReject(Block(e));
      CountedUp(old(blocks), lists, Block(e), blocks);
      if ok {
        AfterPush(old(arr), old(blocks), rings, e, arr, blocks);
        rings := rings[Block(e) := Joined(rings[Block(e)], e)];
      }
    }

    /** Empties slot `e`. */
    method PushENode(e: int)
      requires AllocOk() && Blank(arr, ninfo) && InUse(arr, e) && e != 0
      requires !CanFree(e) ==> arr[blocks[0].ehead].check == 0
      modifies `arr, `ninfo, `blocks, `headF, `headC, `headO, `rings, `lists
      ensures |arr| == |old(arr)|
      ensures |blocks| == |old(blocks)| && 0 <= Block(e) < |blocks| && 0 <= old(blocks)[Block(e)].num + 1 < |reject|
      ensures var b := old(blocks)[Block(e)];
              blocks[Block(e)].reject == if b.reject < reject[b.num + 1] then reject[b.num + 1] else b.reject
      ensures old(CanFree(e)) ==> AllocOk() && Blank(arr, ninfo) && Freed(old(arr), arr, e)
      ensures |old(ninfo)| == |old(arr)| && ninfo == old(ninfo)[e := NO_INFO]
      ensures !old(CanFree(e)) ==> arr == Spliced(old(arr), e, old(blocks)[0].ehead, 0)
      ensures Block(e) != 0 ==> |rings| > 0 && rings[0] == old(rings)[0]
    {
      hide RingsOk, ListsOk, HeadsOk, Blank, Freed, DueUp, Spliced, InUse, Block, CanFree;
      BlankSize(arr, ninfo);
      UsedInRange(arr, e);
      var due := PutBack(e);
      ghost var blocks1 := blocks;
      RefileUp(Block(e), due, old(blocks)[Block(e)].trial);
      ninfo := ninfo[e := NO_INFO];
      if old(CanFree(e)) {
        RingsSameStock(arr, blocks1, rings, blocks);
        BlankAfterFree(old(arr), old(ninfo), arr, e);
      }
    }

    /** Whether all labels but the first find an empty slot below `base`. */
    method RestFits(base: nat, labels: seq<byte>) returns (ok: bool)
      requires |arr| == 256 * |blocks| && 256 <= base < |arr| && labels != []
      ensures ok == forall j :: 1 <= j < |labels| ==> Free(arr, Child(base, labels[j]))
    {
      hide Child;
      var j := 1;
      while j < |labels|
        invariant 1 <= j <= |labels|
        invariant forall i :: 1 <= i < j ==> Free(arr, Child(base, labels[i]))
      {
        ChildInRange(arr, blocks, base, labels[j]);
        if arr[Child(base, labels[j])].check >= 0 {
          return false;
        }
        j := j + 1;
      }
      ok := true;
    }

    /** Tries every empty slot of block `bi` for the first label of a family. */
    method Scan(bi: int, labels: seq<byte>) returns (found: bool, e: int, ghost t: nat)
      requires RingsOk(arr, blocks, rings)
      requires 0 < bi < |blocks| && blocks[bi].num > 0 && labels != []
      ensures |rings| == |blocks|
      ensures found ==> t < |rings[bi]| && rings[bi][t] == e && e >= 0 && Block(e) == bi && Fits(arr, e, labels)
      ensures found ==> forall i :: 0 <= i < t ==> !Fits(arr, rings[bi][i], labels)
      ensures !found ==> forall s :: Free(arr, s) && Block(s) == bi ==> !Fits(arr, s, labels)
    {
      hide *;
      RingOfBlock(arr, blocks, rings, bi);
      ghost var r := rings[bi];
      e := blocks[bi].ehead;
      t := 0;
      while true
        invariant 0 <= t < |r| && e == r[t]
        invariant forall i :: 0 <= i < t ==> r[i] >= 0 && !Fits(arr, r[i], labels)
        decreases |r| - t
      {
        RingStep(arr, blocks, rings, bi, t);
        found := TryAt(e, labels);
        if found {
          return;
        }
        e := -arr[e].check;
        if e == blocks[bi].ehead {
          break;
        }
        t := t + 1;
      }
    }

    /** Looks for a place for a family in block `bi`; a place found becomes the head of the ring. */
    method Explore(bi: int, labels: seq<byte>) returns (found: bool, e: int, ghost t: nat)
      requires RingsOk(arr, blocks, rings) && ListsOk(blocks, lists)
      requires 0 < bi < |blocks| && blocks[bi].num > 0 && labels != []
      modifies `blocks, `rings
      ensures RingsOk(arr, blocks, rings) && ListsOk(blocks, lists) && |blocks| == |old(blocks)|
      ensures found ==> e >= 0 && Block(e) == bi && Fits(arr, e, labels)
      ensures found ==>
                && |old(rings)| == |blocks| && t < |old(rings)[bi]| && e == old(rings)[bi][t]
                && (forall i :: 0 <= i < t ==> !Fits(arr, old(rings)[bi][i], labels))
                && blocks == old(blocks)[bi := old(blocks)[bi].(ehead := e)]
      ensures !found ==>
                && blocks == old(blocks)
                && forall s :: Free(arr, s) && Block(s) == bi ==> !Fits(arr, s, labels)
    {
      hide *;
      found, e, t := Scan(bi, labels);
      if found {
        blocks := blocks[bi := blocks[bi].(ehead := e)];
        HeadMoved(arr, old(blocks), rings, bi, t, blocks);
        ListsSameKinds(old(blocks), lists, bi, blocks);
        rings := rings[bi := Rotated(rings[bi], t)];
      }
    }

    /** Whether a family fits with its first label on the empty slot `e`. */
    method TryAt(e: int, labels: seq<byte>) returns (ok: bool)
      requires RingsOk(arr, blocks, rings) && Free(arr, e) && Block(e) >= 1 && labels != []
      ensures ok == Fits(arr, e, labels)
    {
      var base := Child(e, labels[0]);
      ChildInRange(arr, blocks, e, labels[0]);
      ok := RestFits(base, labels);
      ChildCancels(e, labels[0]);
      hide Child, RingsOk;
    }

    /** Gives up on the open block `bi`, the head of the list, for families of `nc` children. */
    method GiveUp(bi: int, nc: nat) returns (next: int)
      requires AllocOk() && bi == headO != 0
      modifies `blocks, `reject, `headC, `headO, `lists
      ensures AllocOk() && Open in old(lists) && Open in lists
      ensures old(lists)[Open] != [] && lists[Open] == old(lists)[Open][1..]
      ensures lists[Open] == [] <==> bi == old(lists)[Open][|old(lists)[Open]| - 1]
      ensures StockKept(old(blocks), blocks, [bi])
      ensures 0 <= bi < |blocks| && blocks[bi].num == old(blocks)[bi].num && blocks[bi].reject == nc
      ensures var n := blocks[bi].num;
              && 0 <= n < |old(reject)|
              && reject == old(reject)[n := if nc < old(reject)[n] then nc else old(reject)[n]]
      ensures lists[Open] != [] ==> next == headO != 0
    {
      OpenBlock(arr, blocks, rings, lists, headF, headC, headO);
      BlockCount(arr, blocks, rings, bi);
      hide RingsOk, ListsOk, HeadsOk;
      blocks := blocks[bi := blocks[bi].(reject := nc)];
      if blocks[bi].reject < reject[blocks[bi].num] {
        reject := reject[blocks[bi].num := blocks[bi].reject];
      }
      next := blocks[bi].next;
      blocks := blocks[bi := blocks[bi].(trial := blocks[bi].trial + 1)];
      GivenUp(old(blocks), lists, bi, blocks);
      RingsSameCounts(arr, old(blocks), rings, blocks);
      if blocks[bi].trial == MAX_TRIAL {
        CloseHead(bi);
      }
    }

    /** Moves the head of the open list, given up on, to the closed list. */
    method CloseHead(bi: int)
      requires RingsOk(arr, blocks, rings) && HeadsOk(lists, headF, headC, headO) && bi == headO
      requires MayTransfer(blocks, lists, bi, Open, Closed) && Trials(blocks) && KindOf(bi, blocks[bi]) == Closed
      modifies `blocks, `headC, `headO, `lists
      ensures RingsOk(arr, blocks, rings) && ListsOk(blocks, lists) && HeadsOk(lists, headF, headC, headO)
      ensures SameStock(old(blocks), blocks)
      ensures Open in lists && lists[Open] == old(lists)[Open][1..] && headO == Head(lists[Open])
      ensures headO == 0 <==> lists[Open] == []
    {
      assert 0 < bi < |blocks|;
      hide RingsOk, ListsOk, MayTransfer, SameStock, FiledAs, Trials, KindOf;
      headO, headC := TransferBlock(bi, headO, headC, Open, Closed);
      Transferred(old(blocks), blocks, lists, bi, Closed);
      RingsSameStock(arr, old(blocks), rings, blocks);
      BlockZero(blocks, lists, bi, Closed, Open);
      EmptyHead(lists[Open]);
    }

    /** An empty slot for the first of several children such that the others fit as well: a place in the first
        open block that offers one, or else a new block.  Open blocks that fail are given up. */
    method FindPlaceForFamily(labels: seq<byte>) returns (e: int)
      requires AllocOk() && labels != []
      modifies `arr, `ninfo, `blocks, `reject, `headC, `headO, `rings, `lists
      ensures AllocOk() && Open in old(lists)
      ensures Extends(old(arr), arr) && Grown(old(ninfo), ninfo)
      ensures |arr| - |old(arr)| == |ninfo| - |old(ninfo)|
      ensures e >= 0 && Block(e) >= 1 && Fits(arr, e, labels)
      ensures if |arr| == |old(arr)| then Block(e) in old(lists)[Open]
              else |arr| == |old(arr)| + 256 && Block(e) == |old(blocks)|
                   && forall b :: b in old(lists)[Open] ==> InVain(old(arr), old(blocks), b, labels)
    {
      hide RingsOk, ListsOk, Fits, Extends, Grown, InVain, Circular;
      NothingTaken(arr, ninfo);
      OpenList(blocks, lists, headF, headC, headO);
      if headO != 0 {
        var found;
        ghost var tried;
        found, e, tried := SearchOpen(labels);
        if found {
          return;
        }
      }
      var bi := AddBlock();
      e := 256 * bi;
      BlocksCover(old(arr), old(blocks), old(rings));
      BlocksCover(arr, blocks, rings);
      NewBlockFits(old(arr), arr, blocks, bi, labels);
    }

    /** Tries the open blocks in the order of the list, each at most once, until one has a place; those in `tried`
        had none. */
    method SearchOpen(labels: seq<byte>) returns (found: bool, e: int, ghost tried: seq<int>)
      requires AllocOk() && labels != [] && headO != 0
      modifies `blocks, `reject, `headC, `headO, `rings, `lists
      ensures AllocOk() && |blocks| == |old(blocks)| && Open in old(lists) && Open in lists
      ensures old(lists)[Open] == tried + lists[Open] && Distinct(old(lists)[Open])
      ensures forall b :: b in tried ==> InVain(arr, old(blocks), b, labels)
      ensures if found then lists[Open] != [] && e >= 0 && Block(e) == lists[Open][0] >= 1 && Fits(arr, e, labels)
              else lists[Open] == []
    {
      hide RingsOk, ListsOk, FiledAs, Circular, InVain, StockKept, Fits;
      OpenBlock(arr, blocks, rings, lists, headF, headC, headO);
      OpenList(blocks, lists, headF, headC, headO);
      ghost var all := lists[Open];
      NoneTried(arr, blocks, all, labels);
      hide AllocOk, HeadsOk, Tried;
      var bz := blocks[headO].prev;
      var nc := |labels|;
      var bi := headO;
      tried := [];
      while true
        invariant AllocOk() && Open in lists && lists[Open] != [] && bi == headO == lists[Open][0] != 0
        invariant bz == lists[Open][|lists[Open]| - 1]
        invariant Tried(arr, old(blocks), all, blocks, lists[Open], tried, labels)
        decreases |lists[Open]|
      {
        ghost var blocks1, left := blocks, lists[Open];
        var next;
        found, e, next := SearchStep(bi, nc, labels);
        if found {
          TriedAll(arr, old(blocks), all, blocks1, left, tried, labels);
          return;
        }
        OneMoreTried(arr, old(blocks), all, blocks1, left, tried, labels, blocks);
        tried := tried + [bi];
        if bi == bz {
          break;
        }
        bi := next;
      }
      TriedAll(arr, old(blocks), all, blocks, lists[Open], tried, labels);
    }

    /** Tries the head of the open list, and gives it up if it has no place. */
    method SearchStep(bi: int, nc: nat, labels: seq<byte>) returns (found: bool, e: int, next: int)
      requires AllocOk() && bi == headO != 0 && nc == |labels| && nc > 0
      requires Open in lists && lists[Open] != [] && bi == lists[Open][0]
      modifies `blocks, `reject, `headC, `headO, `rings, `lists
      ensures AllocOk() && Open in lists && |blocks| == |old(blocks)|
      ensures found ==>
                && lists == old(lists)
                && e >= 0 && Block(e) == bi >= 1 && Fits(arr, e, labels)
      ensures !found ==>
                && InVain(arr, old(blocks), bi, labels) && StockKept(old(blocks), blocks, [bi])
                && lists[Open] == old(lists)[Open][1..]
                && (lists[Open] == [] <==> bi == old(lists)[Open][|old(lists)[Open]| - 1])
                && (lists[Open] != [] ==> next == headO == lists[Open][0] != 0)
    {
      hide RingsOk, ListsOk, InVain, Fits;
      next := 0;
      found, e := TryBlock(bi, nc, labels);
      if !found {
        next := GiveUp(bi, nc);
      }
    }

    /** Looks for a place in the open block `bi` unless the block is too small or gave up on smaller families. */
    method TryBlock(bi: int, nc: nat, labels: seq<byte>) returns (found: bool, e: int)
      requires AllocOk() && bi == headO != 0 && nc == |labels| && nc > 0
      modifies `blocks, `rings
      ensures AllocOk() && |blocks| == |old(blocks)|
      ensures found ==> e >= 0 && Block(e) == bi >= 1 && Fits(arr, e, labels)
      ensures !found ==> blocks == old(blocks) && InVain(arr, blocks, bi, labels)
    {
      OpenBlock(arr, blocks, rings, lists, headF, headC, headO);
      hide RingsOk, ListsOk, HeadsOk, Fits;
      found, e := false, 0;
      if blocks[bi].num >= nc && nc < blocks[bi].reject {
        ghost var t;
        found, e, t := Explore(bi, labels);
      }
    }

    // ---------------------------------------------------------------- chains of children

    /** Compares two families: whether that of `p` has more children than that of `n`. */
    method Consult(baseN: nat, baseP: nat, firstN: byte, firstP: byte, ghost g: Layout, ghost n: Path, ghost p: Path)
      returns (more: bool)
      requires NodeOk(arr, ninfo, g, n) && NodeOk(arr, ninfo, g, p)
      requires g.kids[n] != [] && g.kids[p] != [] && GoodKids(g.kids[n]) && GoodKids(g.kids[p])
      requires baseN == arr[g.at[n]].base && firstN == ninfo[g.at[n]].child
      requires baseP == arr[g.at[p]].base && firstP == ninfo[g.at[p]].child
      ensures more <==> |g.kids[p]| > |g.kids[n]|
    {
      ghost var i := 0;
      var cn, cp := firstN, firstP;
      while true
        invariant 0 <= i < |g.kids[n]| && cn == g.kids[n][i]
        invariant i < |g.kids[p]| && cp == g.kids[p][i]
        decreases |g.kids[n]| - i
      {
        ChainStep(arr, ninfo, g, n, i);
        ChainStep(arr, ninfo, g, p, i);
        hide *;
        cn := ninfo[Child(baseN, cn)].sibling;
        cp := ninfo[Child(baseP, cp)].sibling;
        if cn == 0 || cp == 0 {
          break;
        }
        i := i + 1;
      }
      more := cp != 0;
    }

    /** Lists the labels of a family in chain order, with `extra` (unless -1) put in front but behind the terminal. */
    method SetChild(base: nat, first: byte, extra: int, ghost g: Layout, ghost p: Path) returns (labels: seq<byte>)
      requires NodeOk(arr, ninfo, g, p) && g.kids[p] != [] && GoodKids(g.kids[p])
      requires base == arr[g.at[p]].base && first == ninfo[g.at[p]].child && -1 <= extra < 256
      ensures labels == if extra == -1 then g.kids[p] else InsertKid(g.kids[p], extra)
    {
      ghost var ks := g.kids[p];
      hide *;
      ChildFirst(arr, ninfo, g, p);
      ChainStep(arr, ninfo, g, p, 0);
      ghost var all := KidsGathered(ks, extra);
      ghost var i := 0;
      var c := first;
      labels := [];
      if c == 0 {
        labels := [c];
        c := ninfo[Child(base, c)].sibling;
        i := 1;
      }
      if extra != -1 {
        labels := labels + [extra];
      }
      labels := ListRest(base, c, labels, g, p, i, all);
    }

    /** Lists the rest of the chain of `p` from the label `first` on. */
    method ListRest(base: nat, first: byte, labels0: seq<byte>, ghost g: Layout, ghost p: Path,
                    ghost i0: nat, ghost all: seq<byte>)
      returns (labels: seq<byte>)
      requires NodeOk(arr, ninfo, g, p) && GoodKids(g.kids[p]) && base == arr[g.at[p]].base
      requires Gathering(labels0, g.kids[p], i0, all) && i0 <= |g.kids[p]|
      requires first == if i0 < |g.kids[p]| then g.kids[p][i0] else 0
      ensures labels == all
    {
      ghost var ks := g.kids[p];
      hide *;
      ghost var i := i0;
      var c := first;
      labels := labels0;
      while c != 0
        invariant i <= |ks| && c == (if i < |ks| then ks[i] else 0)
        invariant Gathering(labels, ks, i, all)
        decreases |ks| - i
      {
        ChainStep(arr, ninfo, g, p, i);
        OneKidMore(labels, ks, i, all);
        labels := labels + [c];
        c := ninfo[Child(base, c)].sibling;
        i := i + 1;
      }
      KidsDone(labels, ks, i, all);
    }

    /** Links the child of `from` under `l` into the chain: behind the terminal if that comes first, else in front. */
    method PushSibling(from: int, base: nat, l: byte, flag: bool)
      requires 0 <= from < |ninfo| && Child(base, l) < |ninfo|
      requires flag && ninfo[from].child == 0 ==> Child(base, 0) < |ninfo|
      modifies `ninfo
      ensures |ninfo| == |old(ninfo)|
      ensures ninfo == WithSibling(old(ninfo), from, base, l, flag && old(ninfo)[from].child == 0)
    {
      hide Child;
      var c := Child(base, l);
      if flag && ninfo[from].child == 0 {
        var s := Child(base, ninfo[from].child);
        ninfo := ninfo[c := ninfo[c].(sibling := ninfo[s].sibling)];
        ninfo := ninfo[s := ninfo[s].(sibling := l)];
      } else {
        ninfo := ninfo[c := ninfo[c].(sibling := ninfo[from].child)];
        ninfo := ninfo[from := ninfo[from].(child := l)];
      }
    }

    // ---------------------------------------------------------------- relocation

    /** Tells the children listed in the chain that starts with `first` that their parent is at `to`. */
    method AdoptChildren(to: int, base: nat, first: byte, ghost ks: seq<byte>)
      requires ks != [] && GoodKids(ks) && first == ks[0] && 0 <= to < |arr|
      requires forall i :: 0 <= i < |ks| ==> KidStep(arr, ninfo, base, ks, to, i)
      modifies `arr
      ensures Adopted(old(arr), base, ks, to, arr)
    {
      hide Child;
      ghost var i := 0;
      var c := first;
      while true
        invariant 0 <= i < |ks| && c == ks[i] && |arr| == |old(arr)|
        invariant forall s :: 0 <= s < |arr| ==>
                    arr[s] == if IsKid(base, ks[..i], s) then old(arr)[s].(check := to) else old(arr)[s]
        decreases |ks| - i
      {
        assert KidStep(old(arr), ninfo, base, ks, to, i);
        IsKidNext(base, ks, i);
        arr := arr[Child(base, c) := arr[Child(base, c)].(check := to)];
        c := ninfo[Child(base, c)].sibling;
        if c == 0 {
          break;
        }
        i := i + 1;
      }
      assert ks[..i + 1] == ks;
    }

    /** Copies the cell at slot `was` to slot `to`, and tells the children. */
    method CopyCell(to: int, was: int, l: byte, ghost arr0: seq<Node>, ghost ninfo0: seq<NInfo>, ghost p: Path,
                    ghost filler: int, ghost next: byte)
      requires Mirrored(layout) && TreeShaped(layout.at.Keys, layout.kids) && Stored(arr0, layout, 0)
      requires p.Edge? && p in layout.at && (p in layout.kids ==> NodeOk(arr0, ninfo0, layout, p))
      requires was == layout.at[p] && l == p.via && to !in layout.owner && 0 <= was < |arr0|
      requires Popped(arr0, ninfo0, to, arr0[was].check, filler, next, arr, ninfo)
      modifies `arr, `ninfo
      ensures CellMoved(arr0, ninfo0, layout, p, to, arr, ninfo) && ninfo[to].sibling == next
      ensures |arr| == |old(arr)| && |ninfo| == |old(ninfo)|
      ensures forall s :: 0 <= s < |arr| && arr[s] != old(arr)[s] ==>
                s == 0 || (old(arr)[s].check >= 0 && arr[s].check >= 0)
      ensures forall s :: 0 <= s < |arr| && s != to ==> ninfo[s] == old(ninfo)[s]
    {
      BeforeCopy(arr0, ninfo0, layout, p, to, filler, next, arr, ninfo);
      assert 0 <= to < |arr| == |ninfo| && ninfo[to] == NInfo(next, 0);
      hide *;
      arr := arr[to := arr[to].(base := arr[was].base)];
      if arr[to].base > 0 && l != 0 {
        ghost var ks := layout.kids[p];
        var c := ninfo[was].child;
        ninfo := ninfo[to := ninfo[to].(child := c)];
        KidStepsKept(old(arr), old(ninfo), arr[to].base, ks, to, arr, ninfo);
        AdoptChildren(to, arr[to].base, c, ks);
      }
      CopyDone(arr0, ninfo0, layout, p, to, filler, next, old(arr), old(ninfo), arr, ninfo);
    }

    /** Takes the empty slot below `base` under `l` for a child of `from` whose next sibling is `next`. */
    method TakeSlot(base: nat, l: byte, from: int, next: byte) returns (to: int)
      requires AllocOk() && Blank(arr, ninfo) && InUse(arr, from) && Free(arr, Child(base, l))
      modifies `arr, `ninfo, `blocks, `headF, `headC, `headO, `rings, `lists
      ensures |arr| == |old(arr)|
      ensures AllocOk() && Blank(arr, ninfo)
      ensures to == Child(base, l)
      ensures Popped(old(arr), old(ninfo), to, from, if l != 0 then -1 else 0, next, arr, ninfo)
    {
      hide RingsOk, ListsOk, HeadsOk, Took, SameExcept, Grown, Blank, Child, Popped;
      to := PopENode(base, l, from);
      assert 0 <= to < |ninfo| by {
        TookInRange(old(arr), arr, to, ninfo);
      }
      PoppedAfter(old(arr), old(ninfo), to, from, if l != 0 then -1 else 0, next, arr, ninfo);
      ninfo := ninfo[to := ninfo[to].(sibling := next)];
    }

    /** Moves the cell at slot `was` to the empty slot below `base`; the old slot is left as it was. */
    method MoveCell(base: nat, was: int, l: byte, from: int, next: byte, ghost p: Path) returns (to: int)
      requires AllocOk() && Blank(arr, ninfo) && InUse(arr, from) && Free(arr, Child(base, l))
      requires Mirrored(layout) && TreeShaped(layout.at.Keys, layout.kids) && Stored(arr, layout, 0)
      requires p.Edge? && p in layout.at && (p in layout.kids ==> NodeOk(arr, ninfo, layout, p))
      requires was == layout.at[p] && l == p.via && Child(base, l) !in layout.owner
      requires 0 <= was < |arr| && arr[was].check == from
      modifies `arr, `ninfo, `blocks, `headF, `headC, `headO, `rings, `lists
      ensures |arr| == |old(arr)|
      ensures AllocOk() && Blank(arr, ninfo)
      ensures to == Child(base, l) && 0 <= to < |ninfo| && ninfo[to].sibling == next
      ensures CellMoved(old(arr), old(ninfo), layout, p, to, arr, ninfo)
      ensures InUse(arr, was) && was != 0
    {
      hide RingsOk, ListsOk, HeadsOk, Blank, Child, Mirrored, TreeShaped, Stored, NodeOk, CellMoved, Popped, InUse;
      to := TakeSlot(base, l, from, next);
      ghost var arr1, ninfo1 := arr, ninfo;
      CopyCell(to, was, l, old(arr), old(ninfo), p, if l != 0 then -1 else 0, next);
      RingsElsewhere(arr1, blocks, rings, arr);
      AfterCopy(old(arr), old(ninfo), layout, p, to, from, if l != 0 then -1 else 0, next, arr1, ninfo1, arr, ninfo);
    }

    /** Moves the child at index `i` of the plan to its new slot; its old slot is left as it was. */
    method ShiftChild(ghost v: Plan, ghost i: nat, ghost done: bool, base: nat, was: int, l: byte, next: byte,
                      from: int, fromN: int, joins: bool) returns (newFromN: int)
      requires AllocOk() && Blank(arr, ninfo) && PlanOk(v) && Midway(arr, ninfo, layout, v, i, done, 0)
      requires i < |v.labels| && !(v.joins && i == v.mark)
      requires base == v.newBase && l == v.labels[i] && next == After(v.labels, i)
      requires was == Child(v.oldBase, l) && joins == v.joins
      requires v.pf in layout.at && v.pn in layout.at && from == layout.at[v.pf] && fromN == layout.at[v.pn]
      modifies `arr, `ninfo, `blocks, `headF, `headC, `headO, `rings, `lists, `layout
      ensures |arr| == |old(arr)|
      ensures AllocOk() && Blank(arr, ninfo)
      ensures Midway(arr, ninfo, layout, v, i + 1, done, was) && Carries(old(arr), old(layout), arr, layout)
      ensures v.pf in layout.at && v.pn in layout.at
      ensures newFromN == layout.at[v.pn] && layout.at[v.pf] == from
      ensures i != v.mark && Edge(v.pn, v.ln) in old(layout).at && Edge(v.pn, v.ln) in layout.at ==>
                layout.at[Edge(v.pn, v.ln)] == old(layout).at[Edge(v.pn, v.ln)]
      ensures InUse(arr, was) && was != 0 && was !in layout.owner
      ensures Stays(old(layout), layout, v.pf)
    {
      hide *;
      BeforeMove(arr, ninfo, layout, v, i, done);
      ghost var p := Edge(v.pf, l);
      newFromN := fromN;
      var to := MoveCell(base, was, l, from, next, p);
      AfterMove(old(arr), old(ninfo), layout, v, i, done, to, arr, ninfo);
      if !joins && was == fromN {
        newFromN := to;
      }
      RenamedStays(layout, p, to);
      layout := Renamed(layout, p, to);
    }

    /** Overwrites a slot that is in use and stays so. */
    method Rewrite(e: int, n: Node)
      requires AllocOk() && 0 <= e < |arr| && (e == 0 || (arr[e].check >= 0 && n.check >= 0))
      modifies `arr
      ensures AllocOk() && arr == old(arr)[e := n]
    {
      hide RingsOk, ListsOk, HeadsOk;
      arr := arr[e := n];
      RingsElsewhere(old(arr), blocks, rings, arr);
    }

    /** Makes slot `toPN`, which is in use, the child of `fromN` under `ln`. */
    method Relink(toPN: nat, fromN: int, ln: byte)
      requires AllocOk() && 0 < toPN < |arr| == |ninfo| && arr[toPN].check >= 0
      requires 0 <= fromN < |ninfo| && Child(Child(toPN, ln), ln) == toPN && Child(Child(toPN, ln), 0) < |ninfo|
      modifies `arr, `ninfo
      ensures AllocOk()
      ensures arr == old(arr)[toPN := Node(if ln != 0 then -1 else 0, fromN)]
      ensures var ninfo1 := WithSibling(old(ninfo), fromN, Child(toPN, ln), ln, old(ninfo)[fromN].child == 0);
              |ninfo1| == |old(ninfo)| && ninfo == ninfo1[toPN := ninfo1[toPN].(child := 0)]
    {
      hide *;
      PushSibling(fromN, Child(toPN, ln), ln, true);
      ninfo := ninfo[toPN := ninfo[toPN].(child := 0)];
      Rewrite(toPN, Node(if ln != 0 then -1 else 0, fromN));
    }

    /** Reuses the contested slot, which its owner has just left, for the new child of `fromN`. */
    method TakeOver(ghost v: Plan, ghost i: nat, toPN: nat, fromN: int, ln: byte)
      requires AllocOk() && Blank(arr, ninfo)
      requires PlanOk(v) && !v.joins && ln == v.ln && toPN == Child(v.baseN, v.ln)
      requires Midway(arr, ninfo, layout, v, i, false, toPN) && toPN !in layout.owner && InUse(arr, toPN)
      requires v.pn in layout.at && fromN == layout.at[v.pn]
      modifies `arr, `ninfo, `layout
      ensures |arr| == |old(arr)|
      ensures AllocOk() && Blank(arr, ninfo)
      ensures Midway(arr, ninfo, layout, v, i, true, 0)
      ensures v.pn in old(layout).kids && CarriesAndAdds(old(arr), old(layout), arr, layout, v.pn, v.ln)
      ensures v.pf in layout.at && v.pf in old(layout).at && layout.at[v.pf] == old(layout).at[v.pf]
      ensures v.pn in layout.at && layout.at[v.pn] == fromN
      ensures Edge(v.pn, v.ln) in layout.at && layout.at[Edge(v.pn, v.ln)] == toPN
      ensures Stays(old(layout), layout, v.pf)
    {
      hide *;
      BeforeTake(arr, ninfo, layout, v, i);
      GraftedStays(arr, ninfo, layout, v, i, toPN, toPN);
      Relink(toPN, fromN, ln);
      AfterTake(old(arr), old(ninfo), layout, v, i, arr, ninfo);
      layout := Grafted(layout, v.pn, v.ln, toPN);
    }

    /** Empties the slot a moved child has left. */
    method FreeOld(ghost v: Plan, ghost i: nat, ghost done: bool, was: int)
      requires AllocOk() && Blank(arr, ninfo) && Midway(arr, ninfo, layout, v, i, done, was)
      requires InUse(arr, was) && was !in layout.owner && Block(was) >= 1
      modifies `arr, `ninfo, `blocks, `headF, `headC, `headO, `rings, `lists
      ensures |arr| == |old(arr)|
      ensures AllocOk() && Blank(arr, ninfo)
      ensures Midway(arr, ninfo, layout, v, i, done, 0) && Carries(old(arr), layout, arr, layout)
    {
      assert CanFree(was) && was < |ninfo|;
      hide *;
      PushENode(was);
      SlotFreed(old(arr), old(ninfo), layout, v, i, done, was, arr, ninfo);
    }

    /** Deals with the label at index `i` of the family that moves. */
    method MoveNext(ghost v: Plan, i: nat, labels: seq<byte>, joins: bool, oldBase: nat, base: nat,
                    from: int, fromN: int, toPN: nat, ln: byte) returns (newFromN: int)
      requires AllocOk() && Blank(arr, ninfo) && PlanOk(v)
      requires Midway(arr, ninfo, layout, v, i, v.mark < i, 0) && i < |labels|
      requires labels == v.labels && joins == v.joins && oldBase == v.oldBase && base == v.newBase && ln == v.ln
      requires v.pf in layout.at && v.pn in layout.at && from == layout.at[v.pf] && fromN == layout.at[v.pn]
      requires toPN == Child(v.baseN, ln)
      modifies `arr, `ninfo, `blocks, `headF, `headC, `headO, `rings, `lists, `layout
      ensures |arr| == |old(arr)|
      ensures AllocOk() && Blank(arr, ninfo)
      ensures Midway(arr, ninfo, layout, v, i + 1, v.mark < i + 1, 0)
      ensures v.pf in layout.at && v.pn in layout.at && from == layout.at[v.pf] && newFromN == layout.at[v.pn]
      ensures Stepped(old(arr), old(layout), arr, layout, v, i, if joins then Child(base, ln) else toPN)
      ensures Stays(old(layout), layout, v.pf)
    {
      hide *;
      BeforeMove(arr, ninfo, layout, v, i, v.mark < i);
      LabelFacts(v, i);
      var l := labels[i];
      var was := Child(oldBase, l);
      if joins && was == toPN {
        newFromN := fromN;
        JoinFamily(v, base, from, l, After(labels, i));
        SteppedAdded(old(arr), old(layout), arr, layout, v, i, Child(base, ln));
      } else {
        newFromN := MoveChild(v, i, base, was, l, After(labels, i), from, fromN, joins, toPN, ln);
      }
    }

    /** Adds the new edge to the family that moves. */
    method JoinFamily(ghost v: Plan, base: nat, from: int, l: byte, next: byte)
      requires AllocOk() && Blank(arr, ninfo) && PlanOk(v) && v.joins && Midway(arr, ninfo, layout, v, v.mark, false, 0)
      requires base == v.newBase && l == v.ln && next == After(v.labels, v.mark)
      requires v.pf in layout.at && from == layout.at[v.pf]
      requires InUse(arr, from) && Free(arr, Child(base, l))
      modifies `arr, `ninfo, `blocks, `headF, `headC, `headO, `rings, `lists, `layout
      ensures |arr| == |old(arr)|
      ensures AllocOk() && Blank(arr, ninfo)
      ensures Midway(arr, ninfo, layout, v, v.mark + 1, true, 0)
      ensures v.pf in layout.at && from == layout.at[v.pf]
      ensures v.pn in old(layout).kids && CarriesAndAdds(old(arr), old(layout), arr, layout, v.pn, l)
      ensures Edge(v.pn, l) in layout.at && layout.at[Edge(v.pn, l)] == Child(base, l)
      ensures Stays(old(layout), layout, v.pf)
    {
      hide *;
      JoinedStays(arr, ninfo, layout, v, Child(base, l));
      var to := TakeSlot(base, l, from, next);
      AfterJoin(old(arr), old(ninfo), layout, v, next, arr, ninfo);
      layout := Grafted(layout, v.pf, l, to);
    }

    /** Moves the child at index `i`; its old slot becomes empty, or the new edge's if that was waiting for it. */
    method MoveChild(ghost v: Plan, ghost i: nat, base: nat, was: int, l: byte, next: byte,
                     from: int, fromN: int, joins: bool, toPN: nat, ln: byte) returns (newFromN: int)
      requires AllocOk() && Blank(arr, ninfo) && PlanOk(v) && Midway(arr, ninfo, layout, v, i, v.mark < i, 0)
      requires i < |v.labels| && !(v.joins && i == v.mark)
      requires base == v.newBase && l == v.labels[i] && next == After(v.labels, i)
      requires was == Child(v.oldBase, l) && joins == v.joins && toPN == Child(v.baseN, v.ln) && ln == v.ln
      requires v.pf in layout.at && v.pn in layout.at && from == layout.at[v.pf] && fromN == layout.at[v.pn]
      requires Block(was) >= 1 && (was == toPN <==> i == v.mark)
      modifies `arr, `ninfo, `blocks, `headF, `headC, `headO, `rings, `lists, `layout
      ensures |arr| == |old(arr)|
      ensures AllocOk() && Blank(arr, ninfo)
      ensures Midway(arr, ninfo, layout, v, i + 1, v.mark < i + 1, 0)
      ensures v.pf in layout.at && v.pn in layout.at && from == layout.at[v.pf] && newFromN == layout.at[v.pn]
      ensures forall to :: i != v.mark || to == toPN ==> Stepped(old(arr), old(layout), arr, layout, v, i, to)
      ensures Stays(old(layout), layout, v.pf)
    {
      hide *;
      newFromN := ShiftChild(v, i, v.mark < i, base, was, l, next, from, fromN, joins);
      ghost var arr1, g1 := arr, layout;
      if !joins && was == toPN {
        TakeOver(v, i + 1, toPN, newFromN, ln);
        StaysTwice(old(layout), g1, layout, v.pf);
        CarriesThenAdds(old(arr), old(layout), arr1, g1, arr, layout, v);
        SteppedAdded(old(arr), old(layout), arr, layout, v, i, toPN);
      } else {
        FreeOld(v, i + 1, v.mark < i, was);
        CarriesTwice(old(arr), old(layout), arr1, layout, arr, layout);
        SteppedCarried(old(arr), old(layout), arr, layout, v, i);
      }
    }

    /** Moves the whole family, label by label. */
    method MoveFamily(ghost v: Plan, labels: seq<byte>, joins: bool, oldBase: nat, base: nat,
                      from: int, fromN: int, toPN: nat, ln: byte) returns (newFromN: int)
      requires AllocOk() && Blank(arr, ninfo) && PlanOk(v) && Midway(arr, ninfo, layout, v, 0, false, 0)
      requires labels == v.labels && joins == v.joins && oldBase == v.oldBase && base == v.newBase && ln == v.ln
      requires v.pf in layout.at && v.pn in layout.at && from == layout.at[v.pf] && fromN == layout.at[v.pn]
      requires toPN == Child(v.baseN, ln)
      modifies `arr, `ninfo, `blocks, `headF, `headC, `headO, `rings, `lists, `layout
      ensures |arr| == |old(arr)|
      ensures AllocOk() && Blank(arr, ninfo) && TreeOk(arr, ninfo, layout, 0, {})
      ensures v.pn in layout.at && newFromN == layout.at[v.pn]
      ensures Progress(old(arr), old(layout), arr, layout, v, true, if joins then Child(base, ln) else toPN)
      ensures Stays(old(layout), layout, v.pf)
      ensures v.pf in layout.at && 0 <= layout.at[v.pf] < |arr| && arr[layout.at[v.pf]].base == base
    {
      hide *;
      MarkInRange(v);
      ghost var to := if joins then Child(base, ln) else toPN;
      UnderwayBegins(arr, ninfo, layout, v, to);
      var i := 0;
      newFromN := fromN;
      while i < |labels|
        invariant 0 <= i <= |labels|
        invariant AllocOk() && Blank(arr, ninfo) && Midway(arr, ninfo, layout, v, i, v.mark < i, 0)
        invariant v.pf in layout.at && v.pn in layout.at && from == layout.at[v.pf] && newFromN == layout.at[v.pn]
        invariant Underway(old(arr), old(layout), arr, layout, v, v.mark < i, to)
      {
        ghost var arr1, g1 := arr, layout;
        newFromN := MoveNext(v, i, labels, joins, oldBase, base, from, newFromN, toPN, ln);
        UnderwayStep(old(arr), old(layout), arr1, g1, arr, ninfo, layout, v, i, to);
        i := i + 1;
      }
      UnderwayOf(old(arr), old(layout), arr, layout, v, true, to);
      MovedBase(arr, ninfo, layout, v);
      MoveFinished(arr, ninfo, layout, v);
    }

    /** Chooses a base below which every label of a family finds an empty slot. */
    method PlaceFamily(labels: seq<byte>) returns (base: nat)
      requires AllocOk() && Blank(arr, ninfo) && labels != []
      modifies `arr, `ninfo, `blocks, `reject, `headC, `headO, `rings, `lists
      ensures AllocOk() && Blank(arr, ninfo)
      ensures Extends(old(arr), arr) && Grown(old(ninfo), ninfo)
      ensures 256 <= base < |arr|
      ensures forall j :: 0 <= j < |labels| ==> Free(arr, Child(base, labels[j]))
      ensures Placed(old(arr), old(blocks), old(lists), labels, |arr|, base)
    {
      hide RingsOk, ListsOk, HeadsOk, Extends, Grown, Child, Fits, Blank, InVain, Circular;
      OpenList(blocks, lists, headF, headC, headO);
      var e;
      if |labels| == 1 {
        e := FindPlace();
        FitsAlone(arr, e, labels);
      } else {
        e := FindPlaceForFamily(labels);
      }
      base := Child(e, labels[0]);
      ChildCancels(e, labels[0]);
      BlankExtended(old(arr), old(ninfo), arr, ninfo);
      PlaceChosen(arr, blocks, rings, e, labels);
    }

    /** Resolves the conflict over the slot below `baseN` under `ln`, which is in use for another parent:
        moves the smaller of the two families and adds the child of `fromN` under `ln`. */
    method Resolve(fromN: int, baseN: nat, ln: byte, ghost pn: Path)
      returns (to: int, newFromN: int, ghost pp: Path)
      requires AllocOk() && Blank(arr, ninfo) && TreeOk(arr, ninfo, layout, 0, {})
      requires pn in layout.kids && pn in layout.at && fromN == layout.at[pn] && layout.kids[pn] != []
      requires pn.Root? ==> ln != 0
      requires 0 <= fromN < |arr| && baseN == arr[fromN].base
      requires InUse(arr, Child(baseN, ln)) && arr[Child(baseN, ln)].check != fromN
      modifies `arr, `ninfo, `blocks, `headF, `headC, `headO, `reject, `rings, `lists, `layout
      ensures AllocOk() && Blank(arr, ninfo) && TreeOk(arr, ninfo, layout, 0, {})
      ensures pn in old(layout).kids && CarriesAndAdds(old(arr), old(layout), arr, layout, pn, ln)
      ensures pn in layout.at && newFromN == layout.at[pn]
      ensures Edge(pn, ln) in layout.at && to == layout.at[Edge(pn, ln)]
      ensures pp in old(layout).kids && pp in old(layout).at && pp != pn
      ensures old(layout).at[pp] == old(arr)[Child(baseN, ln)].check
      ensures var kids := old(layout).kids;
              var pf := if |kids[pp]| > |kids[pn]| then pn else pp;
              && Stays(old(layout), layout, pf) && (pf == pp ==> to == Child(baseN, ln))
              && pf in layout.at && 0 <= layout.at[pf] < |arr| && arr[layout.at[pf]].base >= 0
              && Placed(old(arr), old(blocks), old(lists), if pf == pp then kids[pp] else InsertKid(kids[pn], ln),
                        |arr|, arr[layout.at[pf]].base)
    {
      hide *;
      ghost var m;
      pp, m := Conflict(arr, ninfo, layout, pn, ln);
      var toPN := Child(baseN, ln);
      var fromP := arr[toPN].check;
      var baseP := arr[fromP].base;
      var joins := Consult(baseN, baseP, ninfo[fromN].child, ninfo[fromP].child, layout, pn, pp);
      var labels;
      if joins {
        labels := SetChild(baseN, ninfo[fromN].child, ln, layout, pn);
        GraftedChild(layout.kids[pn], ln);
      } else {
        labels := SetChild(baseP, ninfo[fromP].child, -1, layout, pp);
      }
      var base := PlaceFamily(labels);
      to, newFromN := Settle(fromN, baseN, ln, fromP, baseP, joins, labels, base, pn, pp, m, old(arr), old(ninfo));
    }

    /** Gives the parent of the family its new base and moves the family there. */
    method Settle(fromN: int, baseN: nat, ln: byte, fromP: int, baseP: nat, joins: bool, labels: seq<byte>, base: nat,
                  ghost pn: Path, ghost pp: Path, ghost m: nat, ghost arr0: seq<Node>, ghost ninfo0: seq<NInfo>)
      returns (to: int, newFromN: int)
      requires AllocOk() && Blank(arr, ninfo)
      requires TreeOk(arr0, ninfo0, layout, 0, {}) && Blank(arr0, ninfo0)
      requires Extends(arr0, arr) && Grown(ninfo0, ninfo)
      requires pn in layout.kids && pp in layout.kids && pn in layout.at && pp in layout.at
      requires pn.Edge? && pp.Edge? && pp != pn
      requires layout.kids[pn] != [] && layout.kids[pp] != [] && m < |layout.kids[pp]| && Edge(pn, ln) !in layout.at
      requires fromN == layout.at[pn] && fromP == layout.at[pp]
      requires 0 <= fromN < |arr0| && 0 <= fromP < |arr0|
      requires arr0[fromN].base == baseN >= 256 && arr0[fromP].base == baseP >= 256
      requires Child(baseP, layout.kids[pp][m]) == Child(baseN, ln)
      requires labels == if joins then InsertKid(layout.kids[pn], ln) else layout.kids[pp]
      requires labels != []
      requires 256 <= base < |arr| && forall j :: 0 <= j < |labels| ==> Free(arr, Child(base, labels[j]))
      modifies `arr, `ninfo, `blocks, `headF, `headC, `headO, `rings, `lists, `layout
      ensures AllocOk() && Blank(arr, ninfo) && TreeOk(arr, ninfo, layout, 0, {})
      ensures pn in old(layout).kids && CarriesAndAdds(arr0, old(layout), arr, layout, pn, ln)
      ensures pn in layout.at && newFromN == layout.at[pn]
      ensures Edge(pn, ln) in layout.at && to == layout.at[Edge(pn, ln)]
      ensures |arr| == |old(arr)|
      ensures var pf := if joins then pn else pp;
              && Stays(old(layout), layout, pf) && (!joins ==> to == Child(baseN, ln))
              && pf in layout.at && 0 <= layout.at[pf] < |arr| && arr[layout.at[pf]].base == base
    {
      hide *;
      var from := if joins then fromN else fromP;
      SettleFacts(arr0, ninfo0, layout, arr, ninfo, from, pn, pp);
      ghost var v := PlanFor(layout, pn, baseN, ln, pp, baseP, m, joins, base);
      PlanForFields(layout, pn, baseN, ln, pp, baseP, m, joins, base);
      if joins && labels[0] == ln {
        ninfo := ninfo[from := ninfo[from].(child := ln)];
      }
      Rewrite(from, arr[from].(base := base));
      ReadyToMove(arr0, ninfo0, layout, pn, ln, pp, m, joins, base, labels, old(arr), old(ninfo), arr, ninfo);
      ghost var arr2 := arr;
      newFromN := MoveFamily(v, labels, joins, if joins then baseN else baseP, base, from, fromN, Child(baseN, ln), ln);
      to := if joins then Child(base, ln) else Child(baseN, ln);
      Settled(arr0, arr2, old(layout), arr, layout, v, to);
    }

    // ---------------------------------------------------------------- adding keys

    /** Follows the edge `l` from the place `p` at slot `from`; creates it when it is missing. */
    method Follow(from: int, l: byte, ghost p: Path) returns (to: int, newFrom: int)
      requires AllocOk() && Blank(arr, ninfo) && TreeOk(arr, ninfo, layout, 0, {})
      requires p in layout.kids && p in layout.at && from == layout.at[p] && (p.Root? ==> l != 0)
      modifies `arr, `ninfo, `blocks, `headF, `headC, `headO, `reject, `rings, `lists, `layout
      ensures AllocOk() && Blank(arr, ninfo) && TreeOk(arr, ninfo, layout, 0, {})
      ensures p in layout.at && newFrom == layout.at[p]
      ensures Edge(p, l) in layout.at && to == layout.at[Edge(p, l)]
      ensures if Edge(p, l) in old(layout).at then arr == old(arr) && layout == old(layout)
              else p in old(layout).kids && CarriesAndAdds(old(arr), old(layout), arr, layout, p, l)
    {
      hide *;
      AllocFacts();
      EdgeCases(arr, ninfo, layout, p, l);
      newFrom := from;
      var base := arr[from].base;
      to := if base < 0 then 0 else Child(base, l);
      if base < 0 || arr[to].check < 0 {
        to := NewEdge(from, l, p);
      } else if arr[to].check != from {
        CheckedInUse(arr, to);
        ghost var other;
        to, newFrom, other := Resolve(from, base, l, p);
      }
    }

    /** Takes an empty slot for the child of `from` under `l` and links it into the chain. */
    method NewEdge(from: int, l: byte, ghost p: Path) returns (to: int)
      requires AllocOk() && Blank(arr, ninfo) && TreeOk(arr, ninfo, layout, 0, {})
      requires p in layout.kids && p in layout.at && from == layout.at[p] && (p.Root? ==> l != 0)
      requires Edge(p, l) !in layout.at && InUse(arr, from) && 0 <= from < |arr| == |ninfo|
      requires arr[from].base < 0 <==> layout.kids[p] == []
      requires arr[from].base >= 0 ==> 0 < Child(arr[from].base, l) < |arr| && arr[Child(arr[from].base, l)].check < 0
      modifies `arr, `ninfo, `blocks, `headF, `headC, `headO, `rings, `lists, `layout
      ensures AllocOk() && Blank(arr, ninfo) && TreeOk(arr, ninfo, layout, 0, {})
      ensures p in layout.at && from == layout.at[p]
      ensures Edge(p, l) in layout.at && to == layout.at[Edge(p, l)]
      ensures 0 <= from < |arr| && arr[from].base >= 0
      ensures if old(arr)[from].base < 0 then Placed(old(arr), old(blocks), old(lists), [l], |arr|, arr[from].base)
              else |arr| == |old(arr)| && arr[from].base == old(arr)[from].base
      ensures p in old(layout).kids && CarriesAndAdds(old(arr), old(layout), arr, layout, p, l)
    {
      hide RingsOk, ListsOk, HeadsOk, Blank, TreeOk, CarriesAndAdds, Child, Took, Grown, SameExcept, GraftedKids;
      var base := arr[from].base;
      to := PopENode(base, l, from);
      if base >= 0 {
        UsedKept(old(arr), arr, from);
      }
      ChildCancels(to, l);
      assert |arr| % 256 == 0 by {
        BlocksCover(arr, blocks, rings);
      }
      BeforeLink(old(arr), old(ninfo), layout, p, l, to, arr, ninfo);
      ghost var ninfo1 := ninfo;
      PushSibling(from, Child(to, l), l, base >= 0);
      EdgeAdded(old(arr), old(ninfo), layout, p, l, to, arr, ninfo1, ninfo);
      layout := Grafted(layout, p, l, to);
    }

    /** Stores `val` under `key`, unless a value that is no greater is there already. */
    method Update(key: Key, val: int) returns (value: int)
      requires Valid() && key != [] && ZeroFree(key) && 1 <= val <= MAX_VALUE
      modifies `arr, `ninfo, `blocks, `headF, `headC, `headO, `reject, `rings, `lists, `layout, `dict
      ensures Valid() && dict == Merged(old(dict), key, val) && value == dict[key]
    {
      hide *;
      BeforeUpdate(key);
      var from := Descend(key);
      value := StoreAt(key, from, val);
    }

    /** The first `pos` bytes of `key` lead to slot `from`, the only place that may have no child yet. */
    ghost predicate Descending(key: Key, pos: nat, from: int)
      requires pos <= |key|
      reads this
    {
      && AllocOk() && Blank(arr, ninfo) && TreeOk(arr, ninfo, layout, 0, {}) && Represents(arr, layout, dict)
      && PrefixAt(layout, key, pos, from) && Fruitful(layout, PathOf(key[..pos]))
    }

    lemma BeforeUpdate(key: Key)
      requires Valid()
      ensures Descending(key, 0, 0)
    {
      RootPlace(arr, ninfo, layout);
      assert key[..0] == [];
      hide TreeOk, RingsOk, ListsOk, HeadsOk, Blank, Represents, Fruitful, PathOf;
    }

    /** Updates with each key and its value in turn. */
    method Build(keys: seq<Key>, vals: seq<int>) returns (r: int)
      requires Valid() && |keys| == |vals|
      requires forall i :: 0 <= i < |keys| ==> keys[i] != [] && ZeroFree(keys[i]) && 1 <= vals[i] <= MAX_VALUE
      modifies `arr, `ninfo, `blocks, `headF, `headC, `headO, `reject, `rings, `lists, `layout, `dict
      ensures Valid() && dict == MergedAll(old(dict), keys, vals, |keys|) && r == 0
    {
      hide *;
      NoneMerged(dict, keys, vals);
      var i := 0;
      while i < |keys|
        invariant 0 <= i <= |keys| && Valid() && dict == MergedAll(old(dict), keys, vals, i)
      {
        OneMoreMerged(old(dict), keys, vals, i);
        var value := Update(keys[i], vals[i]);
        i := i + 1;
      }
      r := 0;
    }

    /** Follows or creates the inner edges of `key`, from the root on. */
    method Descend(key: Key) returns (from: int)
      requires ZeroFree(key) && Descending(key, 0, 0)
      modifies `arr, `ninfo, `blocks, `headF, `headC, `headO, `reject, `rings, `lists, `layout
      ensures Descending(key, |key|, from)
    {
      hide *;
      from := 0;
      var pos := 0;
      while pos < |key|
        invariant 0 <= pos <= |key| && Descending(key, pos, from)
      {
        from := DescendStep(key, pos, from);
        pos := pos + 1;
      }
    }

    method DescendStep(key: Key, pos: nat, from: int) returns (to: int)
      requires ZeroFree(key) && pos < |key| && Descending(key, pos, from)
      modifies `arr, `ninfo, `blocks, `headF, `headC, `headO, `reject, `rings, `lists, `layout
      ensures Descending(key, pos + 1, to)
    {
      hide RingsOk, ListsOk, HeadsOk, Blank, TreeOk, Represents, Fruitful, PathOf, AllocOk, CarriesAndAdds;
      ghost var p := PathOf(key[..pos]);
      ghost var arr1, g1 := arr, layout;
      PrefixStep(key, pos);
      var newFrom;
      to, newFrom := Follow(from, key[pos], p);
      Descended(arr1, g1, arr, ninfo, layout, dict, p, key[pos]);
    }

    /** Follows or creates the terminal edge at `from`, the slot of `key`, and lowers its value to `val`. */
    method StoreAt(key: Key, from: int, val: int) returns (value: int)
      requires Descending(key, |key|, from) && key != [] && 1 <= val <= MAX_VALUE
      modifies `arr, `ninfo, `blocks, `headF, `headC, `headO, `reject, `rings, `lists, `layout, `dict
      ensures Valid() && dict == Merged(old(dict), key, val) && value == dict[key]
    {
      hide RingsOk, ListsOk, HeadsOk, Blank, TreeOk, Represents, Fruitful, PathOf, CarriesAndAdds;
      WholePrefix(key);
      var to, newFrom := Follow(from, 0, PathOf(key));
      Reached(old(arr), old(layout), arr, ninfo, layout, dict, key, val);
      var was := arr[to].base;
      if was == 0 || val < was {
        Rewrite(to, arr[to].(base := val));
        dict := dict[key := val];
      }
      value := arr[to].base;
    }

    /** What updating does with `key` followed by a zero byte when `key` itself is not stored: the slot of the new
        terminal is taken for an inner node, the root for an empty slot below it, and the value becomes the root's base. */
    method UpdateBehindZero(key: Key, val: int) returns (value: int)
      requires Valid() && key != [] && ZeroFree(key) && key !in dict && val >= 1
      modifies `arr, `ninfo, `blocks, `headF, `headC, `headO, `reject, `rings, `lists, `layout
      ensures |arr| > 0 && arr[0].base == val == value && arr[0].check > 0
      ensures !Valid()
    {
      hide *;
      BeforeUpdate(key);
      var from := Descend(key);
      var t := NewTerminalAt(key, from);
      var base := arr[t].base;
      ChildZero(base);
      var to := Child(base, 0);
      if arr[to].check < 0 {
        TakeRoot(t);
        PushSibling(t, to, 0, base >= 0);
      }
      var was := arr[to].base;
      if was == 0 || val < was {
        arr := arr[to := arr[to].(base := val)];
      }
      value := arr[to].base;
      SpoiltRoot();
    }

    /** Creates the terminal of `key`, whose value is 0 so far. */
    method NewTerminalAt(key: Key, from: int) returns (t: int)
      requires Descending(key, |key|, from) && key != [] && key !in dict
      modifies `arr, `ninfo, `blocks, `headF, `headC, `headO, `reject, `rings, `lists, `layout
      ensures 0 < t < |arr| == |ninfo| && arr[t].base == 0 && arr[0] == Node(0, -1) && |arr| > 1
      ensures |blocks| > 0
    {
      hide RingsOk, ListsOk, HeadsOk, Blank, TreeOk, Represents, Fruitful, PathOf, CarriesAndAdds, AllocOk;
      WholePrefix(key);
      var newFrom;
      t, newFrom := Follow(from, 0, PathOf(key));
      AllocFacts();
      FreshTerminal(old(arr), old(layout), arr, ninfo, layout, dict, key);
    }

    /** Takes the root's slot off a ring it is not on, as the child of the slot `t`. */
    method TakeRoot(t: int)
      requires |arr| > 1 && |blocks| > 0 && arr[0] == Node(0, -1)
      modifies `arr, `blocks
      ensures |arr| == |old(arr)| && arr[0] == Node(0, t)
    {
      LinkPast(0, Node(0, t));
    }

    // ---------------------------------------------------------------- lookups

    /** Follows the bytes of `key` up to `len` from the place of `text` at slot `from0`. */
    method Find(key: Key, from0: int, pos0: nat, len: nat, ghost text: Key) returns (value: int, from: int, pos: nat)
      requires Valid() && pos0 <= len <= |key| && Readable(dict, text + key[pos0..len])
      requires PathOf(text) in layout.kids && PathOf(text) in layout.at && from0 == layout.at[PathOf(text)]
      ensures value == Lookup(dict, text + key[pos0..len])
      ensures pos0 <= pos <= len && (pos < len ==> value == NO_PATH)
      ensures PathOf(text + key[pos0..pos]) in layout.kids && PathOf(text + key[pos0..pos]) in layout.at
      ensures from == layout.at[PathOf(text + key[pos0..pos])]
      ensures pos < len ==> PathOf(text + key[pos0..pos + 1]) !in layout.kids
      ensures pos == len ==> value != NO_PATH
    {
      value, from, pos := 0, from0, pos0;
      hide RingsOk, ListsOk, HeadsOk, Blank, TreeOk, Represents, Fruitful, PathOf, Lookup, Readable;
      ghost var t := text;
      ghost var whole := text + key[pos0..len];
      NoText(text, key, pos0);
      while pos < len
        invariant pos0 <= pos <= len && t == text + key[pos0..pos]
        invariant PathOf(t) in layout.kids && PathOf(t) in layout.at && from == layout.at[PathOf(t)]
      {
        LongerText(dict, text, key, pos0, pos, len);
        HoldsKey(arr, layout, dict, t);
        var to := StepSlot(from, key[pos], PathOf(t));
        if arr[to].check != from {
          NotFound(arr, ninfo, layout, dict, whole, t + [key[pos]]);
          return NO_PATH, from, pos;
        }
        t := t + [key[pos]];
        pos := pos + 1;
        from := to;
      }
      value := ValueAt(from, t);
    }

    /** The slot below the place `p` under `l`: the child's exactly if its `check` says so. */
    method StepSlot(from: int, l: byte, ghost p: Path) returns (to: nat)
      requires Valid() && p in layout.kids && p in layout.at && from == layout.at[p] && (l == 0 ==> !Holds(layout, p))
      ensures to < |arr| && (arr[to].check == from <==> Edge(p, l) in layout.kids)
      ensures arr[to].check == from ==> Edge(p, l) in layout.at && layout.at[Edge(p, l)] == to
    {
      hide *;
      PlaceFacts(p);
      if l == 0 {
        TerminalCases(arr, ninfo, layout, p);
      } else {
        EdgeCases(arr, ninfo, layout, p, l);
      }
      to := Child(arr[from].base, l);
    }

    /** The value at the place of `s`, if there is one. */
    method ValueAt(from: int, ghost s: Key) returns (value: int)
      requires Valid() && PathOf(s) in layout.kids && PathOf(s) in layout.at && from == layout.at[PathOf(s)]
      ensures value == Lookup(dict, s) && value != NO_PATH
    {
      hide *;
      PlaceFacts(PathOf(s));
      FromRoot(s);
      TerminalCases(arr, ninfo, layout, PathOf(s));
      FoundEntry(arr, ninfo, layout, dict, s);
      var n := arr[Child(arr[from].base, 0)];
      value := if n.check != from then NO_VALUE else n.base;
    }

    lemma PlaceFacts(p: Path)
      requires Valid() && p in layout.kids
      ensures |arr| % 256 == 0 && layout.kids[p] != []
      ensures TreeOk(arr, ninfo, layout, 0, {}) && Blank(arr, ninfo)
      ensures Fruitful(layout, Root) && Represents(arr, layout, dict)
      ensures Edge(p, 0) !in layout.kids
      ensures forall l: byte :: l != 0 ==> (Edge(p, l) in layout.at <==> Edge(p, l) in layout.kids)
    {
      hide RingsOk, ListsOk, HeadsOk, Blank, TreeOk, Represents, Fruitful;
      BlocksCover(arr, blocks, rings);
      PlaceKids(arr, ninfo, layout, p);
    }

    /** What a lookup from the root starts with and what its answer means. */
    lemma FromRoot(key: Key)
      requires Valid()
      ensures PathOf([]) in layout.kids && PathOf([]) in layout.at && layout.at[PathOf([])] == 0
      ensures key[0..|key|] == key && [] + key == key
      ensures Root in layout.kids
      ensures Unmarked(dict) && NO_VALUE != NO_PATH
      ensures var v := Lookup(dict, key);
              if key in dict then v == dict[key] && v != NO_VALUE && v != NO_PATH else v == NO_VALUE || v == NO_PATH
    {
      hide RingsOk, ListsOk, HeadsOk, Blank, TreeOk, Represents, Fruitful, PathOf, Lookup, Unmarked;
      RootPlace(arr, ninfo, layout);
      ValuesAreNoMarks(arr, layout, dict);
      WholeSlice(key);
      LookupCases(dict, key);
    }

    /** Follows `key` from the root as far as there are places: its value, and the slot and length reached. */
    method Traverse(key: Key) returns (value: int, from: int, pos: nat)
      requires Valid() && Readable(dict, key)
      ensures value == Lookup(dict, key)
      ensures if key in dict then value == dict[key] && value != NO_VALUE && value != NO_PATH
              else value == NO_VALUE || value == NO_PATH
      ensures pos <= |key| && (value == NO_PATH <==> pos < |key|)
      ensures PathOf(key[..pos]) in layout.kids && PathOf(key[..pos]) in layout.at && from == layout.at[PathOf(key[..pos])]
      ensures pos < |key| ==> PathOf(key[..pos + 1]) !in layout.kids
    {
      hide *;
      FromRoot(key);
      value, from, pos := Find(key, 0, 0, |key|, []);
      assert [] + key[0..pos] == key[..pos];
      assert pos < |key| ==> [] + key[0..pos + 1] == key[..pos + 1];
    }

    /** The value stored under `key`; no value if there is none. */
    method ExactMatchSearch(key: Key) returns (value: int)
      requires Valid() && Readable(dict, key)
      ensures value == if key in dict then dict[key] else NO_VALUE
    {
      hide *;
      FromRoot(key);
      var from, pos;
      value, from, pos := Find(key, 0, 0, |key|, []);
      if value == NO_PATH {
        value := NO_VALUE;
      }
    }

    // ---------------------------------------------------------------- walking the entries

    /** From the place `p` at slot `from0` to the first place below it that holds a value. */
    method Begin(from0: int, len0: int, ghost p: Path, ghost h: nat) returns (value: int, from: int, len: int, ghost q: Path)
      requires Valid() && Bounded(layout, h) && p in layout.kids && p in layout.at && from0 == layout.at[p]
      ensures p.Edge? ==> Flat(layout, h, p, 0) != []
      ensures Flat(layout, h, p, 0) == [] ==> value == NO_PATH
      ensures Flat(layout, h, p, 0) != [] ==>
                && Arrived(layout, dict, q, from, value)
                && Flat(layout, h, p, 0) == [q] + Left(layout, h, p, q)
                && Beneath(p, q) && len - len0 == Depth(q) - Depth(p)
    {
      from, len, q := from0, len0, p;
      hide RingsOk, ListsOk, HeadsOk, Blank, TreeOk, Represents, Fruitful, PathOf, Flat, Bounded, FromIndex, Left, Child,
           IndexOf, Arrived;
      BeginAt(arr, ninfo, layout, h, p);
      assert |arr| % 256 == 0 by {
        BlocksCover(arr, blocks, rings);
      }
      var base := arr[from].base;
      var c := ninfo[from].child;
      if from == 0 {
        c := ninfo[Child(base, c)].sibling;
        if c == 0 {
          return NO_PATH, from, len, q;
        }
      }
      while c != 0
        invariant q in layout.kids && q in layout.at && from == layout.at[q] && Beneath(p, q)
        invariant c in layout.kids[q] && (q.Root? ==> c != 0)
        invariant Flat(layout, h, p, 0) == FromIndex(layout, h, p, q, IndexOf(layout.kids[q], c))
        invariant len - len0 == Depth(q) - Depth(p)
        decreases h - Depth(q)
      {
        DownStep(arr, ninfo, layout, h, p, q, c);
        from := Child(arr[from].base, c);
        q := Edge(q, c);
        c := ninfo[from].child;
        len := len + 1;
      }
      BeginDone(arr, ninfo, layout, h, dict, p, q);
      value := arr[Child(arr[from].base, c)].base;
    }

    /** From the entry at `q0` to the next one below the place `rootP` at slot `root`. */
    method Next(from0: int, len0: int, root: int, ghost rootP: Path, ghost q0: Path, ghost h: nat)
      returns (value: int, from: int, len: int, ghost q: Path)
      requires Valid() && Bounded(layout, h) && rootP in layout.kids && rootP in layout.at && root == layout.at[rootP]
      requires q0 in layout.kids && q0 in layout.at && from0 == layout.at[q0]
      requires Holds(layout, q0) && Beneath(rootP, q0)
      ensures Left(layout, h, rootP, q0) == [] ==> value == NO_PATH
      ensures Left(layout, h, rootP, q0) != [] ==>
                && Arrived(layout, dict, q, from, value)
                && Left(layout, h, rootP, q0) == [q] + Left(layout, h, rootP, q)
                && Beneath(rootP, q) && len - len0 == Depth(q) - Depth(q0)
    {
      from, len, q := from0, len0, q0;
      hide RingsOk, ListsOk, HeadsOk, Blank, TreeOk, Represents, Fruitful, Flat, Bounded, FromIndex, Left, Child,
           IndexOf, LabelAt, TreeShaped;
      ShapeOf(arr, ninfo, layout);
      NextAt(arr, ninfo, layout, h, rootP, q0);
      var c := ninfo[Child(arr[from].base, 0)].sibling;
      ghost var i := 1;
      while c == 0 && from != root
        invariant q in layout.kids && q in layout.at && from == layout.at[q] && Beneath(rootP, q)
        invariant 1 <= i && c == LabelAt(layout.kids[q], i)
        invariant Left(layout, h, rootP, q0) == FromIndex(layout, h, rootP, q, i)
        invariant len - len0 == Depth(q) - Depth(q0)
        decreases Depth(q)
      {
        EndOfChain(arr, ninfo, layout, q, i);
        i := UpStep(arr, ninfo, layout, h, rootP, q, i);
        c := ninfo[from].sibling;
        from := arr[from].check;
        q := q.up;
        len := len - 1;
      }
      if c != 0 {
        TurnStep(arr, ninfo, layout, h, rootP, q, i);
        ghost var e := Edge(q, c);
        from := Child(arr[from].base, c);
        len := len + 1;
        value, from, len, q := Begin(from, len, e, h);
        WalkContinues(layout, h, rootP, e, q);
      } else {
        EndOfWalk(arr, ninfo, layout, h, q, i);
        value := NO_PATH;
      }
    }

    lemma UpFacts(q: Path)
      requires Valid() && q in layout.at && Depth(q) > 0
      ensures q.Edge? && q.up in layout.at && 0 <= layout.at[q] < |arr|
      ensures var from := arr[layout.at[q]].check;
              && from == layout.at[q.up] && 0 <= from < |arr| && arr[from].base >= 0
              && Block(arr[from].base) == Block(layout.at[q]) && Label(arr[from].base, layout.at[q]) == q.via
    {
      UpFrom(arr, ninfo, layout, q);
      hide RingsOk, ListsOk, HeadsOk, Blank, TreeOk, Represents, Fruitful, Label, Block;
    }

    /** The last `len` bytes of the text of the place `p` at slot `node`. */
    method Suffix(len: nat, node: int, ghost p: Path) returns (key: Key)
      requires Valid() && p in layout.at && node == layout.at[p] && len <= |Text(p)|
      ensures key == Text(p)[|Text(p)| - len..]
    {
      hide *;
      key := [];
      var to := node;
      ghost var q := p;
      var n := len;
      NoSuffix(p);
      while n > 0
        invariant 0 <= n <= len && n <= Depth(q) && q in layout.at && to == layout.at[q]
        invariant Remaining(p, q, key) && |key| == len - n
      {
        UpFacts(q);
        OneByteUp(p, q, key);
        n := n - 1;
        var from := arr[to].check;
        key := [Label(arr[from].base, to)] + key;
        to := from;
        q := q.up;
      }
      SuffixDone(p, q, key, len);
    }

    /** Counts the entries: the slots in use whose label is 0. */
    method NumKeys() returns (i: nat)
      requires Valid()
      ensures i == |dict|
    {
      hide RingsOk, ListsOk, HeadsOk, Blank, TreeOk, Represents, Fruitful, TerminalSlots;
      i := 0;
      var to := 0;
      CountStart(arr, ninfo, layout);
      while to < |arr|
        invariant 0 <= to <= |arr| && i == |TerminalSlots(layout, to)|
      {
        SlotCases(arr, ninfo, layout, to);
        CountStep(layout, to);
        if arr[to].check >= 0 && arr[arr[to].check].base == to {
          i := i + 1;
        }
        to := to + 1;
      }
      CountDone(arr, ninfo, layout, dict);
    }

    lemma PlacesApart()
      requires Valid()
      ensures forall p, q :: p in layout.at && q in layout.at && layout.at[p] == layout.at[q] ==> p == q
    {
      ShapeOf(arr, ninfo, layout);
      hide TreeOk, RingsOk, ListsOk;
    }

    /** A full walk below the place of `key` meets exactly the keys that extend `key`. */
    lemma WholeWalk(key: Key) returns (h: nat)
      requires Valid() && PathOf(key) in layout.kids
      ensures Bounded(layout, h) && Enumerates(Texts(Flat(layout, h, PathOf(key), 0)), dict, key)
    {
      hide *;
      PlaceFacts(PathOf(key));
      h := TreeDepth(layout);
      WalkIsExact(arr, ninfo, layout, dict, h, key);
    }

    lemma NothingBelow(key: Key)
      requires Valid() && Lookup(dict, key) == NO_PATH
      ensures Enumerates([], dict, key) && InWalkOrder(layout, key, [])
    {
      hide *;
      FromRoot(key);
      PlaceFacts(Root);
      NothingToWalk(layout, dict, key, 0);
      NothingInOrder(arr, ninfo, layout, dict, key);
    }

    /** Counts the keys that extend `key` and describes the first `resultLen` of them. */
    method CommonPrefixPredict(key: Key, resultLen: nat) returns (num: nat, results: seq<Prediction>, ghost ks: seq<Key>)
      requires Valid() && Readable(dict, key)
      ensures InWalkOrder(layout, key, ks)
      ensures Enumerates(ks, dict, key) && Reported(layout, dict, key, ks, resultLen, num, results)
      ensures Predicted(layout, dict, key, resultLen, num, results)
    {
      hide *;
      FromRoot(key);
      PlacesApart();
      var value, root, pos := Find(key, 0, 0, |key|, []);
      if value == NO_PATH {
        NothingBelow(key);
        NothingToWalk(layout, dict, key, resultLen);
        num, results, ks := 0, [], [];
      } else {
        num, results, ks := Walk(root, resultLen, key);
      }
      ReportPredicts(layout, dict, key, ks, resultLen, num, results);
    }

    /** Walks the entries below the place of `key` at slot `root`. */
    method Walk(root: int, resultLen: nat, ghost key: Key) returns (num: nat, results: seq<Prediction>, ghost ks: seq<Key>)
      requires Valid() && PathOf(key) in layout.kids && PathOf(key) in layout.at && root == layout.at[PathOf(key)]
      ensures InWalkOrder(layout, key, ks)
      ensures Enumerates(ks, dict, key) && Reported(layout, dict, key, ks, resultLen, num, results)
    {
      hide *;
      PlaceFacts(PathOf(key));
      ghost var h := WholeWalk(key);
      NothingReported(layout, dict, key, resultLen);
      ghost var p, q, done := PathOf(key), Root, [];
      var from, len, value;
      num, results := 0, [];
      value, from, len, q := Begin(root, 0, p, h);
      WalkBegun(arr, layout, dict, h, p, q, from, value);
      while value != NO_PATH
        invariant Walked(layout, dict, h, p, done, q, from, value)
        invariant value != NO_PATH ==> len == Depth(q) - Depth(p)
        invariant Reported(layout, dict, key, Texts(done), resultLen, num, results)
        decreases |Flat(layout, h, p, 0)| - |done|
      {
        WalkAt(layout, dict, h, p, done, q, from, value);
        WalkMeets(layout, dict, h, key, done, q, from, value, len);
        OneReported(layout, dict, key, done, q, resultLen, num, results, Prediction(value, len, from));
        if num < resultLen {
          results := results + [Prediction(value, len, from)];
        }
        num := num + 1;
        ghost var q0, from0, value0 := q, from, value;
        value, from, len, q := Next(from, len, root, p, q, h);
        WalkAdvanced(arr, layout, dict, h, p, done, q0, from0, value0, q, from, value);
        done := done + [q0];
      }
      WalkEnds(layout, dict, h, p, done, q, from);
      ks := Texts(done);
      WalkedInOrder(layout, h, key, ks);
    }

    /** Describes every entry, unless there are more than `resultLen` of them. */
    method Dump(resultLen: nat) returns (ok: bool, results: seq<Prediction>, ghost ks: seq<Key>)
      requires Valid()
      ensures Enumerates(ks, dict, []) && |ks| == |dict|
      ensures InWalkOrder(layout, [], ks)
      ensures ok <==> |dict| <= resultLen
      ensures Reported(layout, dict, [], ks, resultLen, |ks|, results)
    {
      RootPlace(arr, ninfo, layout);
      var num;
      num, results, ks := Walk(0, resultLen, []);
      hide *;
      EnumeratesAll(ks, dict);
      ok := num <= resultLen;
    }

    /** Follows one more byte of `key`. */
    method FindByte(key: Key, from0: int, pos0: nat) returns (value: int, from: int, pos: nat)
      requires Valid() && Readable(dict, key) && pos0 < |key| && PrefixAt(layout, key, pos0, from0)
      ensures pos <= |key| && pos == if value == NO_PATH then pos0 else pos0 + 1
      ensures value == Lookup(dict, key[..pos0 + 1])
      ensures value != NO_PATH ==> PrefixAt(layout, key, pos, from)
    {
      hide Readable, Valid, PathOf, Lookup;
      OneMoreByte(dict, key, pos0);
      value, from, pos := Find(key, from0, pos0, pos0 + 1, key[..pos0]);
    }

    /** The values and lengths of the keys that are prefixes of `key`, shortest first; at most `resultLen` of them. */
    method CommonPrefixSearch(key: Key, resultLen: nat) returns (num: nat, results: seq<Hit>)
      requires Valid() && Readable(dict, key)
      ensures Searched(dict, key, |key|, resultLen, num, results)
    {
      hide *;
      num, results := 0, [];
      var from, pos := 0, 0;
      FromRoot(key);
      NoHits(layout, dict, key, resultLen);
      while pos < |key|
        invariant 0 <= pos <= |key| && PrefixAt(layout, key, pos, from)
        invariant Searched(dict, key, pos, resultLen, num, results)
      {
        ghost var pos0 := pos;
        var value;
        value, from, pos := FindByte(key, from, pos);
        HitsStep(dict, key, pos0, resultLen, num, results, value);
        if value == NO_PATH {
          NoMoreHits(dict, key, pos, resultLen, num, results);
          return;
        }
        if value != NO_VALUE {
          if num < resultLen {
            results := results + [Hit(value, pos)];
          }
          num := num + 1;
        }
      }
    }

    // ---------------------------------------------------------------- erasing

    /** Takes the label `l` out of the chain of the children of the node at `from`. */
    method PopSibling(from: int, base: nat, l: byte, ghost x: Path)
      requires Bare(layout, x) && from == layout.at[x.up] && l == x.via
      requires NodeOk(arr, ninfo, layout, x.up) && GoodKids(layout.kids[x.up]) && base == arr[from].base
      modifies `ninfo
      ensures ChainCut(old(ninfo), layout, x, base, IndexOf(layout.kids[x.up], x.via), ninfo)
    {
      ghost var ks, k := layout.kids[x.up], IndexOf(layout.kids[x.up], x.via);
      ChainStep(arr, ninfo, layout, x.up, k);
      hide NodeOk, Child, IndexOf;
      var c := ninfo[from].child;
      assert c == ks[0] by {
        ChildFirst(arr, ninfo, layout, x.up);
      }
      if c == l {
        ninfo := ninfo[from := ninfo[from].(child := ninfo[Child(base, l)].sibling)];
      } else {
        ChainStep(arr, ninfo, layout, x.up, 0);
        var at := Child(base, c);
        ghost var i := 0;
        while ninfo[at].sibling != l
          invariant ninfo == old(ninfo)
          invariant 0 <= i < k && at == Child(base, ks[i]) && at < |ninfo| && ninfo[at].sibling == After(ks, i)
          decreases k - i
        {
          ChainStep(arr, ninfo, layout, x.up, i + 1);
          at := Child(base, ninfo[at].sibling);
          i := i + 1;
        }
        ninfo := ninfo[at := ninfo[at].(sibling := ninfo[Child(base, l)].sibling)];
      }
    }

    /** Takes the leaf `x` at slot `e` out of the chain of its parent, unless it is the only child. */
    method Unchain(from: int, e: int, ghost x: Path, ghost rest: map<Key, int>) returns (flag: bool)
      requires Blank(arr, ninfo) && Doomed(arr, ninfo, layout, rest, x)
      requires from == layout.at[x.up] && e == layout.at[x]
      modifies `ninfo
      ensures flag == (|layout.kids[x.up]| >= 2) && Blank(arr, ninfo) && |ninfo| == |arr|
      ensures if flag then TreeOk(arr, ninfo, Pruned(layout, x), e, {}) else ninfo == old(ninfo)
    {
      LeafFacts(arr, ninfo, layout, x);
      LabelOfChild(arr[from].base, x.via);
      hide *;
      flag := ninfo[Child(arr[from].base, ninfo[from].child)].sibling != 0;
      if flag {
        PopSibling(from, arr[from].base, Label(arr[from].base, e), x);
        ChainCutKeeps(arr, old(ninfo), layout, rest, x, ninfo);
      }
    }

    lemma BeforeEmptying(x: Path, ninfo0: seq<NInfo>)
      requires RingsOk(arr, blocks, rings) && TreeOk(arr, ninfo0, layout, 0, {x}) && Bare(layout, x)
      ensures |rings| > 0 && |blocks| > 0 && |arr| > 0
      ensures var e := layout.at[x];
              && 0 < e < |arr| == |ninfo0| && InUse(arr, e) && (Block(e) == 0 <==> x.up.Root?)
              && (CanFree(e) <==> !(x.up.Root? && rings[0] == []))
              && (!CanFree(e) ==> 0 < blocks[0].ehead < |arr| && arr[blocks[0].ehead].check == 0)
      ensures x.up.Root? ==> |layout.kids[x.up]| >= 2
    {
      LeafFacts(arr, ninfo0, layout, x);
      StaleHeadTaken(arr, ninfo0, layout, x, blocks, rings);
      hide TreeOk, RingsOk, Bare, Block;
    }

    /** Empties the slot `e` of the leaf `x`, which has left its chain. */
    method EmptyLeaf(e: int, ghost x: Path, ghost rest: map<Key, int>, ghost ninfo0: seq<NInfo>)
      requires AllocOk() && Blank(arr, ninfo) && Doomed(arr, ninfo0, layout, rest, x) && e == layout.at[x]
      requires if |layout.kids[x.up]| >= 2 then TreeOk(arr, ninfo, Pruned(layout, x), e, {}) else ninfo == ninfo0
      modifies `arr, `ninfo, `blocks, `headF, `headC, `headO, `rings, `lists
      ensures Bare(layout, x) && |old(rings)| > 0 && |layout.kids[x.up]| >= (if x.up.Root? then 2 else 0)
      ensures !x.up.Root? ==> |rings| > 0 && rings[0] == old(rings)[0]
      ensures |arr| == |old(arr)|
      ensures if x.up.Root? && old(rings)[0] == [] then |arr| > 0 && arr[0].base < 0
              else AllocOk() && Blank(arr, ninfo) && Shed(arr, ninfo, layout, rest, x)
    {
      hide *;
      AllocFacts();
      DoomedFacts(arr, ninfo0, layout, rest, x);
      BlankSize(arr, ninfo);
      BeforeEmptying(x, ninfo0);
      ghost var ok := CanFree(e);
      ghost var ninfo1 := ninfo;
      PushENode(e);
      if ok {
        LeafTakenOff(old(arr), ninfo0, layout, rest, x, ninfo1, arr, ninfo);
      } else {
        RootSpoilt(old(arr), e, old(blocks)[0].ehead);
      }
    }

    /** Takes the leaf `x` at slot `e` off the tree; `flag` says whether its parent has other children. */
    method TakeOff(from: int, e: int, ghost x: Path, ghost rest: map<Key, int>) returns (flag: bool)
      requires AllocOk() && Blank(arr, ninfo) && Doomed(arr, ninfo, layout, rest, x)
      requires from == layout.at[x.up] && e == layout.at[x]
      modifies `arr, `ninfo, `blocks, `headF, `headC, `headO, `rings, `lists, `layout
      ensures Bare(old(layout), x) && layout == Pruned(old(layout), x)
      ensures flag == (|old(layout).kids[x.up]| >= 2) && |old(rings)| > 0 && (x.up.Root? ==> flag)
      ensures !x.up.Root? ==> |rings| > 0 && rings[0] == old(rings)[0]
      ensures |arr| == |old(arr)|
      ensures if x.up.Root? && old(rings)[0] == [] then |arr| > 0 && arr[0].base < 0
              else AllocOk() && Blank(arr, ninfo) && Shed(arr, ninfo, old(layout), rest, x)
    {
      hide *;
      flag := Unchain(from, e, x, rest);
      EmptyLeaf(e, x, rest, old(ninfo));
      layout := Pruned(layout, x);
    }

    /** The state while `key` is erased: `x`, at slot `e` below the node at `from`, goes next, or everything is done.
        `full` says whether block 0 had no empty slot. */
    ghost predicate Amid(done: bool, rest: map<Key, int>, x: Path, from: int, e: int, key: Key, full: bool)
      reads `arr, `ninfo, `blocks, `headF, `headC, `headO, `reject, `rings, `lists, `layout
    {
      key != [] &&
      if !done then
        && AllocOk() && Blank(arr, ninfo) && Erasing(arr, ninfo, layout, rest, x, from, e, key)
        && |rings| > 0 && (rings[0] == [] <==> full)
      else if full && !StartsWith(rest, key[0]) then |arr| > 0 && arr[0].base < 0
      else AllocOk() && Blank(arr, ninfo) && Cleared(arr, ninfo, layout, rest)
    }

    method EraseStep(from0: int, e0: int, ghost x: Path, ghost rest: map<Key, int>, ghost key: Key, ghost full: bool)
      returns (flag: bool, from: int, e: int)
      requires Amid(false, rest, x, from0, e0, key, full)
      modifies `arr, `ninfo, `blocks, `headF, `headC, `headO, `rings, `lists, `layout
      ensures x.Edge? && Depth(x) == 1 + Depth(x.up)
      ensures Amid(flag, rest, x.up, from, e, key, full)
    {
      ErasingFacts(arr, ninfo, layout, rest, x, from0, e0, key);
      ghost var g0, spoils := layout, x.up.Root? && rings[0] == [];
      hide RingsOk, ListsOk, HeadsOk, Blank, Erasing, Doomed, Cleared, Shed, StartsWith, Pruned, Bare, Beneath, AllocOk;
      flag := TakeOff(from0, e0, x, rest);
      if !spoils {
        ErasingOn(g0, arr, ninfo, rest, x, from0, key);
      }
      e := from0;
      from := arr[from0].check;
    }

    lemma BeforeErasing(key: Key)
      requires Valid() && key in dict && PathOf(key) in layout.at
      ensures var from := layout.at[PathOf(key)];
              && |rings| > 0 && 0 <= from < |arr| && arr[from].base >= 0 && key != []
              && Amid(false, dict - {key}, Terminal(key), from, Child(arr[from].base, 0), key, rings[0] == [])
      ensures Erasable(dict, key) <==> !(rings[0] == [] && !StartsWith(dict - {key}, key[0]))
    {
      ErasureStarts(arr, ninfo, layout, dict, blocks, rings, key);
      hide TreeOk, RingsOk, ListsOk, HeadsOk, Blank, Erasing, StartsWith, Erasable, Represents, Fruitful;
    }

    lemma AfterErasing(x: Path, from: int, e: int, key: Key, full: bool)
      requires Amid(true, dict, x, from, e, key, full)
      ensures key != [] && if full && !StartsWith(dict, key[0]) then |arr| > 0 && arr[0].base < 0 else Valid()
    {
      hide TreeOk, RingsOk, ListsOk, HeadsOk, Blank, StartsWith, Represents, Fruitful;
    }

    /** Takes the terminal of `key` off the tree, and every place above it that is left without a child. */
    method EraseFrom(from0: int, ghost key: Key)
      requires Valid() && key in dict && PathOf(key) in layout.at && from0 == layout.at[PathOf(key)]
      modifies `arr, `ninfo, `blocks, `headF, `headC, `headO, `rings, `lists, `layout, `dict
      ensures dict == old(dict) - {key}
      ensures if Erasable(old(dict), key) then Valid() else |arr| > 0 && arr[0].base < 0
    {
      hide *;
      BeforeErasing(key);
      ghost var rest, x, full := dict - {key}, Terminal(key), rings[0] == [];
      var from := from0;
      var e := Child(arr[from].base, 0);
      var flag := false;
      while !flag
        invariant Amid(flag, rest, x, from, e, key, full)
        decreases if flag then 0 else 1 + Depth(x)
      {
        flag, from, e := EraseStep(from, e, x, rest, key, full);
        x := x.up;
      }
      dict := rest;
      AfterErasing(x, from, e, key, full);
    }

    /** Erases the entry of `key`.  When `key` is not `Erasable` the array ends up with a negative root base. */
    method Erase(key: Key) returns (r: int)
      requires Valid() && Readable(dict, key)
      modifies `arr, `ninfo, `blocks, `headF, `headC, `headO, `rings, `lists, `layout, `dict
      ensures r == (if key in old(dict) then 0 else -1) && dict == old(dict) - {key}
      ensures key !in old(dict) ==> unchanged(this)
      ensures Valid() <==> Erasable(old(dict), key)
      ensures !Erasable(old(dict), key) ==> |arr| > 0 && arr[0].base < 0
    {
      NotErasable(dict, key);
      hide *;
      FromRoot(key);
      var value, from, pos := Find(key, 0, 0, |key|, []);
      if value == NO_PATH || value == NO_VALUE {
        return -1;
      }
      EraseFrom(from, key);
      SpoiltRoot();
      r := 0;
    }

    /** A valid array has a root with base 0. */
    lemma SpoiltRoot()
      ensures Valid() ==> |arr| > 0 && arr[0].base == 0
    {
      if Valid() {
        RootPlace(arr, ninfo, layout);
        assert NodeOk(arr, ninfo, layout, Root);
      }
    }
  }

  /** Erasing one of 255 one-byte keys leaves the root with a negative base. */
  method EraseFromFullRoot() returns (d: DoubleArray)
    ensures fresh(d) && d.dict == Singles(255) - {[1]} && !d.Valid() && |d.arr| > 0 && d.arr[0].base < 0
  {
    hide *;
    d := new DoubleArray();
    NoSingles();
    var n := 0;
    while n < 255
      invariant 0 <= n <= 255 && fresh(d) && d.Valid() && d.dict == Singles(n)
    {
      n := n + 1;
      OneMoreSingle(n);
      var value := d.Update([n], n);
    }
    SinglesFillRoot();
    var r := d.Erase([1]);
  }
}
