/** Bitwise operations on natural numbers, bit by bit. */
module Bits {
  /** Bitwise exclusive or. */
  function Xor(a: nat, b: nat): nat {
    if a == 0 then b else if b == 0 then a else (a % 2 + b % 2) % 2 + 2 * Xor(a / 2, b / 2)
  }

  /** The low bit and the rest; the recursive equation holds for zeros too. */
  lemma {:induction false} XorParts(a: nat, b: nat)
    ensures Xor(a, b) % 2 == (a % 2 + b % 2) % 2 && Xor(a, b) / 2 == Xor(a / 2, b / 2)
  {
    XorStep(a, b);
    Halves((a % 2 + b % 2) % 2, Xor(a / 2, b / 2));
  }

  lemma {:induction false} XorStep(a: nat, b: nat)
    ensures Xor(a, b) == (a % 2 + b % 2) % 2 + 2 * Xor(a / 2, b / 2)
  {
  }

  lemma {:induction false} Halves(low: nat, rest: nat)
    requires low < 2
    ensures (low + 2 * rest) % 2 == low && (low + 2 * rest) / 2 == rest
  {
  }

  lemma {:induction false} XorCancels(a: nat, b: nat)
    ensures Xor(Xor(a, b), b) == a
    decreases a + b
  {
    if a == 0 {
      XorSelf(b);
    } else {
      hide Xor;
      var x := Xor(a, b);
      XorParts(a, b);
      XorParts(x, b);
      XorCancels(a / 2, b / 2);
      SameParts(Xor(x, b), x, a, b);
    }
  }

  lemma {:induction false} SameParts(y: nat, x: nat, a: nat, b: nat)
    requires y / 2 == a / 2 && x % 2 == (a % 2 + b % 2) % 2 && y % 2 == (x % 2 + b % 2) % 2
    ensures y == a
  {
    assert y % 2 == a % 2;
    assert y == 2 * (y / 2) + y % 2 && a == 2 * (a / 2) + a % 2;
  }

  lemma {:induction false} XorSelf(b: nat)
    ensures Xor(b, b) == 0
  {
    if b != 0 {
      XorSelf(b / 2);
    }
  }

  function Pow2(n: nat): nat {
    if n == 0 then 1 else 2 * Pow2(n - 1)
  }

  lemma {:induction false} XorBound(a: nat, b: nat, n: nat)
    requires a < Pow2(n) && b < Pow2(n)
    ensures Xor(a, b) < Pow2(n)
    decreases n
  {
    if a != 0 && b != 0 {
      XorBound(a / 2, b / 2, n - 1);
    }
  }

  lemma {:induction false} XorCommutes(a: nat, b: nat)
    ensures Xor(a, b) == Xor(b, a)
  {
    if a != 0 && b != 0 {
      XorCommutes(a / 2, b / 2);
    }
  }

  lemma {:induction false} Zeros(a: nat)
    ensures Xor(a, 0) == a && Xor(0, a) == a && Or(a, 0) == a && Or(0, a) == a
  {
  }

  /** Bits below 2^n leave those above alone. */
  lemma {:induction false} XorHigh(a: nat, n: nat, b: nat, c: nat)
    requires b < Pow2(n) && c < Pow2(n)
    ensures Xor(a * Pow2(n) + b, c) == a * Pow2(n) + Xor(b, c)
  {
    hide Xor, Pow2;
    if n == 0 {
      NoBits(b);
      NoBits(c);
      Zeros(a * Pow2(0));
      Zeros(0);
    } else {
      HalfBits(b, n);
      HalfBits(c, n);
      XorHigh(a, n - 1, b / 2, c / 2);
      XorTwice(a * Pow2(n - 1), b, c);
      TwicePow(a, n);
    }
  }

  lemma {:induction false} NoBits(b: nat)
    requires b < Pow2(0)
    ensures b == 0
  {
  }

  lemma {:induction false} HalfBits(b: nat, n: nat)
    requires n > 0 && b < Pow2(n)
    ensures b / 2 < Pow2(n - 1)
  {
  }

  lemma {:induction false} XorTwice(h: nat, b: nat, c: nat)
    requires Xor(h + b / 2, c / 2) == h + Xor(b / 2, c / 2)
    ensures Xor(2 * h + b, c) == 2 * h + Xor(b, c)
  {
    hide Xor;
    EvenPlus(h, b);
    XorStep(2 * h + b, c);
    XorStep(b, c);
  }

  lemma {:induction false} TwicePow(a: nat, n: nat)
    requires n > 0
    ensures a * Pow2(n) == 2 * (a * Pow2(n - 1))
  {
  }

  lemma {:induction false} EvenPlus(h: nat, b: nat)
    ensures (2 * h + b) % 2 == b % 2 && (2 * h + b) / 2 == h + b / 2
  {
  }

  /** Exclusive or with all ones is the complement. */
  lemma {:induction false} XorOnes(a: nat, n: nat)
    requires a < Pow2(n)
    ensures Xor(a, Pow2(n) - 1) == Pow2(n) - 1 - a
  {
    if n > 0 {
      XorOnes(a / 2, n - 1);
      XorOdd(a, Pow2(n - 1));
    }
  }

  lemma {:induction false} XorOdd(a: nat, p: nat)
    requires p > 0 && Xor(a / 2, p - 1) == p - 1 - a / 2
    ensures Xor(a, 2 * p - 1) == 2 * p - 1 - a
  {
    hide Xor;
    EvenPlus(p - 1, 1);
    XorStep(a, 2 * p - 1);
  }

  /** Bitwise or. */
  function Or(a: nat, b: nat): nat {
    if a == 0 then b else if b == 0 then a
    else (if a % 2 == 1 || b % 2 == 1 then 1 else 0) + 2 * Or(a / 2, b / 2)
  }

  lemma {:induction false} OrParts(a: nat, b: nat)
    ensures Or(a, b) % 2 == (if a % 2 == 1 || b % 2 == 1 then 1 else 0) && Or(a, b) / 2 == Or(a / 2, b / 2)
  {
    OrStep(a, b);
    Halves(if a % 2 == 1 || b % 2 == 1 then 1 else 0, Or(a / 2, b / 2));
  }

  lemma {:induction false} OrStep(a: nat, b: nat)
    ensures Or(a, b) == (if a % 2 == 1 || b % 2 == 1 then 1 else 0) + 2 * Or(a / 2, b / 2)
  {
  }

  /** Or of bits that do not overlap is their sum. */
  lemma {:induction false} OrDisjoint(b: nat, a: nat, n: nat)
    requires b < Pow2(n)
    ensures Or(b, a * Pow2(n)) == b + a * Pow2(n)
    decreases n
  {
    if n == 0 {
      Zeros(a);
    } else {
      hide Or;
      var h := a * Pow2(n - 1);
      TwicePow(a, n);
      OrDisjoint(b / 2, a, n - 1);
      EvenPlus(h, 0);
      OrStep(b, 2 * h);
    }
  }

  lemma {:induction false} Powers()
    ensures Pow2(32) == 0x1_0000_0000 && Pow2(33) == 0x2_0000_0000 && Pow2(64) == 0x1_0000_0000_0000_0000
  {
    assert Pow2(8) == 256;
    assert Pow2(16) == 65536;
    assert Pow2(24) == 16777216;
    assert Pow2(32) == 4294967296;
    assert Pow2(40) == 1099511627776;
    assert Pow2(48) == 281474976710656;
    assert Pow2(56) == 72057594037927936;
  }
}
