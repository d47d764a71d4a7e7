/** Bitwise operations on natural numbers, with the few laws the word, layout
    and varint models need. */
module Bits {

  type Byte = b: nat | b < 256

  function Pow2(k: nat): (p: nat)
    ensures p > 0
  {
    if k == 0 then 1 else 2 * Pow2(k - 1)
  }

  /** Bitwise or. */
  function Or(a: nat, b: nat): nat
    decreases a + b
  {
    if a == 0 then b
    else if b == 0 then a
    else 2 * Or(a / 2, b / 2) + (if a % 2 == 1 || b % 2 == 1 then 1 else 0)
  }

  /** Bitwise and. */
  function And(a: nat, b: nat): nat
    decreases a
  {
    if a == 0 || b == 0 then 0
    else 2 * And(a / 2, b / 2) + (if a % 2 == 1 && b % 2 == 1 then 1 else 0)
  }

  /** The number with lowest binary digit `b` and the digits of `rest` above it. */
  function Bit(b: bool, rest: nat): nat { (if b then 1 else 0) + 2 * rest }

  lemma Pow2Add(a: nat, b: nat)
    ensures Pow2(a + b) == Pow2(a) * Pow2(b)
  {
    if a == 0 {
    } else {
      Pow2Add(a - 1, b);
    }
  }

  lemma MulMono(a: int, b: int, p: nat)
    requires a <= b
    ensures a * p <= b * p
  {
  }

  lemma MulDiv(q: nat, d: nat, r: nat)
    requires r < d
    ensures (q * d + r) / d == q && (q * d + r) % d == r
  {
    var n := q * d + r;
    var q', r' := n / d, n % d;
    assert n == q' * d + r';
    if q' < q {
      MulMono(q' + 1, q, d);
      assert false;
    } else if q < q' {
      MulMono(q + 1, q', d);
      assert false;
    }
  }

  lemma Pow2Small()
    ensures Pow2(7) == 128 && Pow2(8) == 0x100
  {
  }

  lemma Pow2Values()
    ensures Pow2(7) == 128 && Pow2(8) == 0x100 && Pow2(32) == 0x1_0000_0000
    ensures Pow2(64) == 0x1_0000_0000_0000_0000
    ensures Pow2(128) == 0x1_0000_0000_0000_0000_0000_0000_0000_0000
  {
    Pow2Small();
    hide Pow2;
    Pow2Add(8, 8);
    Pow2Add(16, 16);
    Pow2Add(32, 32);
    Pow2Add(64, 64);
  }

  /** One unrolling of `Or` and `And`, with no case for zero operands. */
  lemma OrAndStep(a: nat, b: nat)
    ensures Or(a, b) == 2 * Or(a / 2, b / 2) + (if a % 2 == 1 || b % 2 == 1 then 1 else 0)
    ensures And(a, b) == 2 * And(a / 2, b / 2) + (if a % 2 == 1 && b % 2 == 1 then 1 else 0)
  {
  }

  lemma OrZero(a: nat)
    ensures Or(a, 0) == a && Or(0, a) == a
  {
  }

  lemma Halve(hi: nat, p: nat, lo: nat)
    ensures (hi * (2 * p) + lo) / 2 == hi * p + lo / 2
    ensures (hi * (2 * p) + lo) % 2 == lo % 2
  {
    assert hi * (2 * p) + lo == 2 * (hi * p) + lo;
  }

  /** `Or` and `And` act separately on the digits above and below position `k`. */
  lemma {:induction false} SplitAt(k: nat, h1: nat, l1: nat, h2: nat, l2: nat)
    requires l1 < Pow2(k) && l2 < Pow2(k)
    ensures Or(h1 * Pow2(k) + l1, h2 * Pow2(k) + l2) == Or(h1, h2) * Pow2(k) + Or(l1, l2)
    ensures And(h1 * Pow2(k) + l1, h2 * Pow2(k) + l2) == And(h1, h2) * Pow2(k) + And(l1, l2)
    decreases k
  {
    hide Or, And;
    if k == 0 {
      OrZero(0);
      OrAndStep(0, 0);
    } else {
      var p := Pow2(k - 1);
      Halve(h1, p, l1);
      Halve(h2, p, l2);
      OrAndStep(h1 * Pow2(k) + l1, h2 * Pow2(k) + l2);
      OrAndStep(l1, l2);
      SplitAt(k - 1, h1, l1 / 2, h2, l2 / 2);
      Double(Or(h1, h2), p);
      Double(And(h1, h2), p);
    }
  }

  lemma Double(h: nat, p: nat)
    ensures 2 * (h * p) == h * (2 * p)
  {
  }

  /** A mask of `k` ones keeps every number below 2^k. */
  lemma {:induction false} AndOnes(k: nat, x: nat)
    requires x < Pow2(k)
    ensures And(x, Pow2(k) - 1) == x
    decreases k
  {
    if k == 0 {
    } else {
      OrAndStep(x, Pow2(k) - 1);
      AndOnes(k - 1, x / 2);
    }
  }

  lemma BitParts(b: bool, rest: nat)
    ensures Bit(b, rest) % 2 == 1 <==> b
    ensures Bit(b, rest) / 2 == rest
  {
  }

  lemma BitOr(a: bool, x: nat, b: bool, y: nat, c: bool)
    requires c == (a || b)
    ensures Or(Bit(a, x), Bit(b, y)) == Bit(c, Or(x, y))
  {
    hide Or, And;
    OrAndStep(Bit(a, x), Bit(b, y));
    assert Bit(a, x) / 2 == x && Bit(b, y) / 2 == y;
  }

  lemma BitAnd(a: bool, x: nat, b: bool, y: nat, c: bool)
    requires c == (a && b)
    ensures And(Bit(a, x), Bit(b, y)) == Bit(c, And(x, y))
  {
    hide Or, And;
    OrAndStep(Bit(a, x), Bit(b, y));
    assert Bit(a, x) / 2 == x && Bit(b, y) / 2 == y;
  }
}
