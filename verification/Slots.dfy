/** Slots of the double array: the bytes that label edges, and the address
    arithmetic that takes a node's base and a label to the child's slot. */
module Slots {

  type byte = x: int | 0 <= x < 256

  /** Bitwise exclusive or of two naturals. */
  function Xor(a: nat, b: nat): nat
    decreases a + b
  {
    if a == 0 then b
    else if b == 0 then a
    else Join((a + b) % 2, Xor(a / 2, b / 2))
  }

  /** The number with lowest bit `low` and the bits of `high` above it. */
  function Join(low: nat, high: nat): nat {
    low + 2 * high
  }

  lemma JoinParts(low: nat, high: nat)
    requires low < 2
    ensures Join(low, high) % 2 == low && Join(low, high) / 2 == high
  {
  }

  lemma XorStep(a: nat, b: nat)
    ensures Xor(a, b) % 2 == (a + b) % 2
    ensures Xor(a, b) / 2 == Xor(a / 2, b / 2)
  {
    if a != 0 && b != 0 {
      XorStepOdd(a, b, Xor(a / 2, b / 2));
    }
  }

  lemma XorStepOdd(a: nat, b: nat, x: nat)
    requires a != 0 && b != 0 && x == Xor(a / 2, b / 2)
    ensures Xor(a, b) % 2 == (a + b) % 2 && Xor(a, b) / 2 == x
  {
    assert Xor(a, b) == Join((a + b) % 2, x);
    hide Xor;
    JoinParts((a + b) % 2, x);
  }

  lemma SameHalves(a: nat, b: nat)
    requires a % 2 == b % 2 && a / 2 == b / 2
    ensures a == b
  {
  }

  lemma {:induction false} XorCancels(a: nat, b: nat)
    ensures Xor(Xor(a, b), b) == a
    decreases a + b
  {
    hide Xor;
    if a + b == 0 {
      XorZero();
    } else {
      XorCancels(a / 2, b / 2);
      var x := Xor(a, b);
      XorStep(a, b);
      XorStep(x, b);
      assert (x + b) % 2 == a % 2;
      SameHalves(Xor(x, b), a);
    }
  }

  lemma XorZero()
    ensures Xor(0, 0) == 0
  {
  }

  lemma {:induction false} XorCommutes(a: nat, b: nat)
    ensures Xor(a, b) == Xor(b, a)
    decreases a + b
  {
    if a != 0 && b != 0 {
      XorCommutes(a / 2, b / 2);
    }
  }

  lemma XorQuarter(a: nat, b: nat)
    ensures Xor(a, b) / 4 == Xor(a / 4, b / 4)
  {
    hide Xor;
    XorStep(a, b);
    XorStep(a / 2, b / 2);
    DivTwice(a, 2, 2);
    DivTwice(b, 2, 2);
    DivTwice(Xor(a, b), 2, 2);
  }

  lemma XorSixteenth(a: nat, b: nat)
    ensures Xor(a, b) / 16 == Xor(a / 16, b / 16)
  {
    hide Xor;
    XorQuarter(a, b);
    XorQuarter(a / 4, b / 4);
    DivTwice(a, 4, 4);
    DivTwice(b, 4, 4);
    DivTwice(Xor(a, b), 4, 4);
  }

  /** Exclusive or acts separately on the block number and the place in the block. */
  lemma XorBlock(a: nat, b: nat)
    ensures Xor(a, b) / 256 == Xor(a / 256, b / 256)
  {
    hide Xor;
    XorSixteenth(a, b);
    XorSixteenth(a / 16, b / 16);
    DivTwice(a, 16, 16);
    DivTwice(b, 16, 16);
    DivTwice(Xor(a, b), 16, 16);
  }

  lemma DivTwice(a: nat, d: nat, e: nat)
    requires (d, e) == (2, 2) || (d, e) == (4, 4) || (d, e) == (16, 16)
    ensures a / d / e == a / (d * e)
  {
    var q, r := a / d, a % d;
    var q', r' := q / e, q % e;
    assert a == q * d + r;
    assert q == q' * e + r';
  }

  lemma XorHighBits(a: nat, b: nat)
    requires b < 256
    ensures Xor(a, b) / 256 == a / 256
  {
    XorBlock(a, b);
    XorNothing(a / 256);
  }

  lemma XorNothing(a: nat)
    ensures Xor(a, 0) == a
  {
  }

  lemma {:induction false} XorSelf(a: nat)
    ensures Xor(a, a) == 0
  {
    if a != 0 {
      XorSelf(a / 2);
    }
  }

  lemma XorSameBlock(a: nat, b: nat)
    requires a / 256 == b / 256
    ensures Xor(a, b) < 256
  {
    XorBlock(a, b);
    XorSelf(a / 256);
  }

  /** The block a slot belongs to. */
  function Block(slot: nat): nat {
    slot / 256
  }

  /** The slot that the child under `l` takes below a node with base `base`. */
  function Child(base: nat, l: byte): (slot: nat)
    ensures Block(slot) == Block(base)
  {
    XorHighBits(base, l);
    Xor(base, l)
  }

  /** The label that leads from a node with base `base` to `slot`. */
  function Label(base: nat, slot: nat): byte
    requires Block(base) == Block(slot)
  {
    XorSameBlock(base, slot);
    Xor(base, slot)
  }

  lemma ChildCancels(base: nat, l: byte)
    ensures Child(Child(base, l), l) == base
  {
    XorCancels(base, l);
  }

  lemma ChildZero(base: nat)
    ensures Child(base, 0) == base
  {
  }

  /** Exclusive or is its own inverse whichever operand is repeated. */
  lemma LabelOfChild(base: nat, l: byte)
    ensures Label(base, Child(base, l)) == l
  {
    var slot := Child(base, l);
    XorCommutes(base, l);
    XorCommutes(base, slot);
    XorCancels(l, base);
  }

  /** Different labels lead to different slots. */
  lemma ChildInjective(base: nat, l: byte, m: byte)
    requires Child(base, l) == Child(base, m)
    ensures l == m
  {
    LabelOfChild(base, l);
    LabelOfChild(base, m);
  }
}
