/** The three records the double array is made of. */
module Cells {
  import opened Slots

  /** One slot of the array.  In use: `base` is the base of an inner node or the
      value of a terminal, and `check` the parent's slot.  Empty: the negated
      slots of the previous and the next empty slot of the block. */
  datatype Node = Node(base: int, check: int)

  /** Links of the child chain through a slot: the label of the next sibling and
      the label of the first child, 0 when there is none. */
  datatype NInfo = NInfo(sibling: byte, child: byte)

  /** Bookkeeping for 256 consecutive slots. */
  datatype BlockInfo = BlockInfo(prev: int, next: int, num: int, reject: int, trial: int, ehead: int)

  const NO_INFO := NInfo(0, 0)

  /** An empty slot; slot 0 is the root and never empty. */
  predicate Free(arr: seq<Node>, s: int) {
    0 < s < |arr| && arr[s].check < 0
  }

  predicate InUse(arr: seq<Node>, s: int) {
    0 <= s < |arr| && !Free(arr, s)
  }
}
