/**
 The field multiplication is the one of the codec's documentation: bytes are polynomials over GF(2), multiplied without
 carries and reduced modulo x^8 + x^4 + x^3 + x^2 + 1.
 */
module GfPolynomial {
  import opened Gf256

  /** A polynomial of degree below 16: bit i of `low` is the coefficient of x^i, bit i of `high` that of x^(8 + i). */
  datatype Poly = Poly(high: Elem, low: Elem)

  const MODULUS := Poly(0x01, 0x1D)

  function Plus(p: Poly, q: Poly): Poly {
    Poly(Add(p.high, q.high), Add(p.low, q.low))
  }

  function Shift(a: Elem): Elem {
    a << 1
  }

  /** Multiplication by x; the polynomial has room for it. */
  function TimesX(p: Poly): Poly {
    Poly(if Masked(p.low, 0x80) then Add(Shift(p.high), 1) else Shift(p.high), Shift(p.low))
  }

  /** Multiplication by x^n. */
  function Times(p: Poly, n: nat): Poly {
    if n == 0 then p else TimesX(Times(p, n - 1))
  }

  predicate Masked(b: Elem, mask: Elem) {
    b & mask != 0
  }

  predicate Bit(b: Elem, i: nat)
    requires i < 8
  {
    match i
    case 0 => Masked(b, 0x01)
    case 1 => Masked(b, 0x02)
    case 2 => Masked(b, 0x04)
    case 3 => Masked(b, 0x08)
    case 4 => Masked(b, 0x10)
    case 5 => Masked(b, 0x20)
    case 6 => Masked(b, 0x40)
    case _ => Masked(b, 0x80)
  }

  /** a times the terms of b below x^n: shift and add, no carries. */
  function Product(a: Elem, b: Elem, n: nat): Poly
    requires n <= 8
  {
    if n == 0 then Poly(0, 0)
    else if Bit(b, n - 1) then Plus(Product(a, b, n - 1), Times(Poly(0, a), n - 1))
    else Product(a, b, n - 1)
  }

  /** Long division: cancel the terms x^(8 + n - 1) down to x^8, each by that multiple of the modulus. */
  function Remainder(p: Poly, n: nat): Poly
    requires n <= 8
    decreases n
  {
    if n == 0 then p
    else Remainder(if Bit(p.high, n - 1) then Plus(p, Times(MODULUS, n - 1)) else p, n - 1)
  }

  lemma {:induction false} AddMoves(x: Elem, y: Elem, m: Elem)
    ensures Add(Add(x, m), Add(y, m)) == Add(x, y)
    ensures Add(Add(x, m), y) == Add(Add(x, y), m)
    ensures Add(x, Add(y, m)) == Add(Add(x, y), m)
  {
    hide Add;
    AddLaws(x, m, Add(y, m));
    AddLaws(m, Add(y, m), 0);
    AddLaws(y, m, m);
    AddLaws(m, m, m);
    AddLaws(y, 0, 0);
    AddLaws(x, m, y);
    AddLaws(m, y, 0);
    AddLaws(x, y, m);
  }

  lemma {:induction false} PlusLaws(p: Poly, q: Poly, m: Poly)
    ensures Plus(Plus(p, m), Plus(q, m)) == Plus(p, q)
    ensures Plus(Plus(p, m), q) == Plus(Plus(p, q), m)
    ensures Plus(p, Plus(q, m)) == Plus(Plus(p, q), m)
  {
    hide Add;
    AddMoves(p.high, q.high, m.high);
    AddMoves(p.low, q.low, m.low);
  }

  lemma {:induction false} BitAdd(a: Elem, b: Elem, i: nat)
    requires i < 8
    ensures Bit(Add(a, b), i) <==> Bit(a, i) != Bit(b, i)
  {
    hide Masked, Add;
    match i
    case 0 => MaskedAdd0(a, b);
    case 1 => MaskedAdd1(a, b);
    case 2 => MaskedAdd2(a, b);
    case 3 => MaskedAdd3(a, b);
    case 4 => MaskedAdd4(a, b);
    case 5 => MaskedAdd5(a, b);
    case 6 => MaskedAdd6(a, b);
    case _ => MaskedAdd7(a, b);
  }

  lemma {:induction false} MaskedAdd0(a: Elem, b: Elem)
    ensures Masked(Add(a, b), 0x01) <==> Masked(a, 0x01) != Masked(b, 0x01)
  {
  }

  lemma {:induction false} MaskedAdd1(a: Elem, b: Elem)
    ensures Masked(Add(a, b), 0x02) <==> Masked(a, 0x02) != Masked(b, 0x02)
  {
  }

  lemma {:induction false} MaskedAdd2(a: Elem, b: Elem)
    ensures Masked(Add(a, b), 0x04) <==> Masked(a, 0x04) != Masked(b, 0x04)
  {
  }

  lemma {:induction false} MaskedAdd3(a: Elem, b: Elem)
    ensures Masked(Add(a, b), 0x08) <==> Masked(a, 0x08) != Masked(b, 0x08)
  {
  }

  lemma {:induction false} MaskedAdd4(a: Elem, b: Elem)
    ensures Masked(Add(a, b), 0x10) <==> Masked(a, 0x10) != Masked(b, 0x10)
  {
  }

  lemma {:induction false} MaskedAdd5(a: Elem, b: Elem)
    ensures Masked(Add(a, b), 0x20) <==> Masked(a, 0x20) != Masked(b, 0x20)
  {
  }

  lemma {:induction false} MaskedAdd6(a: Elem, b: Elem)
    ensures Masked(Add(a, b), 0x40) <==> Masked(a, 0x40) != Masked(b, 0x40)
  {
  }

  lemma {:induction false} MaskedAdd7(a: Elem, b: Elem)
    ensures Masked(Add(a, b), 0x80) <==> Masked(a, 0x80) != Masked(b, 0x80)
  {
  }

  lemma {:induction false} RemainderAdd(p: Poly, q: Poly, n: nat)
    requires n <= 8
    ensures Remainder(Plus(p, q), n) == Plus(Remainder(p, n), Remainder(q, n))
    decreases n
  {
    hide Bit, Times;
    if n > 0 {
      var m := Times(MODULUS, n - 1);
      BitAdd(p.high, q.high, n - 1);
      PlusLaws(p, q, m);
      hide Add;
      var p' := if Bit(p.high, n - 1) then Plus(p, m) else p;
      var q' := if Bit(q.high, n - 1) then Plus(q, m) else q;
      RemainderAdd(p', q', n - 1);
    }
  }

  lemma {:induction false} ShiftAdd(a: Elem, b: Elem)
    ensures Shift(Add(a, b)) == Add(Shift(a), Shift(b))
  {
  }

  lemma {:induction false} TimesXAdd(p: Poly, q: Poly)
    ensures TimesX(Plus(p, q)) == Plus(TimesX(p), TimesX(q))
  {
    MaskedAdd7(p.low, q.low);
    ShiftAdd(p.high, q.high);
    ShiftAdd(p.low, q.low);
    hide Masked, Add, Shift;
    AddMoves(Shift(p.high), Shift(q.high), 1);
  }

  lemma {:induction false} TimesAdd(p: Poly, q: Poly, n: nat)
    ensures Times(Plus(p, q), n) == Plus(Times(p, n), Times(q, n))
  {
    hide TimesX, Plus;
    if n > 0 {
      TimesAdd(p, q, n - 1);
      TimesXAdd(Times(p, n - 1), Times(q, n - 1));
    }
  }

  lemma {:induction false} TimesLater(p: Poly, n: nat)
    ensures Times(TimesX(p), n) == Times(p, n + 1)
  {
    hide TimesX;
    if n > 0 {
      TimesLater(p, n - 1);
    }
  }

  /** x times a byte is its double, up to the modulus. */
  lemma {:induction false} DoubleIsTimesX(a: Elem)
    ensures TimesX(Poly(0, a)) == if Masked(a, 0x80) then Plus(Poly(0, Double(a)), MODULUS) else Poly(0, Double(a))
  {
  }

  lemma {:induction false} LowRemains(a: Elem, n: nat)
    requires n <= 8
    ensures Remainder(Poly(0, a), n) == Poly(0, a)
  {
    if n > 0 {
      NoBit(n - 1);
      hide Bit, Times, Plus;
      LowRemains(a, n - 1);
    }
  }

  lemma {:induction false} NoBit(i: nat)
    requires i < 8
    ensures !Bit(0, i)
  {
  }

  lemma {:induction false} Multiples()
    ensures Times(MODULUS, 0) == Poly(0x01, 0x1D) && Times(MODULUS, 1) == Poly(0x02, 0x3A)
    ensures Times(MODULUS, 2) == Poly(0x04, 0x74) && Times(MODULUS, 3) == Poly(0x08, 0xE8)
    ensures Times(MODULUS, 4) == Poly(0x11, 0xD0) && Times(MODULUS, 5) == Poly(0x23, 0xA0)
    ensures Times(MODULUS, 6) == Poly(0x47, 0x40) && Times(MODULUS, 7) == Poly(0x8E, 0x80)
  {
    assert Times(MODULUS, 2) == Poly(0x04, 0x74);
    assert Times(MODULUS, 4) == Poly(0x11, 0xD0);
    assert Times(MODULUS, 6) == Poly(0x47, 0x40);
  }

  /** The highest term of a multiple of the modulus. */
  lemma {:induction false} HighestTerm(k: nat, j: nat)
    requires k <= j < 8
    ensures Bit(Times(MODULUS, k).high, j) <==> j == k
  {
    hide Times;
    Multiples();
  }

  lemma {:induction false} MultipleVanishes(k: nat, n: nat)
    requires k < n <= 8
    ensures Remainder(Times(MODULUS, k), n) == Poly(0, 0)
    decreases n
  {
    hide Bit, Times;
    HighestTerm(k, n - 1);
    if n - 1 == k {
      NothingLeft(Times(MODULUS, k));
      LowRemains(0, n - 1);
    } else {
      MultipleVanishes(k, n - 1);
    }
  }

  lemma {:induction false} NothingLeft(p: Poly)
    ensures Plus(p, p) == Poly(0, 0)
  {
    hide Add;
    AddLaws(p.high, p.high, 0);
    AddLaws(p.low, p.low, 0);
  }

  lemma {:induction false} PlusNothing(p: Poly)
    ensures Plus(p, Poly(0, 0)) == p && Plus(Poly(0, 0), p) == p
  {
    hide Add;
    AddLaws(p.high, 0, 0);
    AddLaws(p.low, 0, 0);
  }

  /** A byte times x^i leaves the byte doubled i times. */
  lemma {:induction false} RemainderShifted(a: Elem, i: nat)
    requires i < 8
    ensures Remainder(Times(Poly(0, a), i), 8) == Poly(0, Doublings(i, a))
    decreases i
  {
    hide Times, Double, Masked, Plus, Remainder;
    if i == 0 {
      LowRemains(a, 8);
      TimesNone(Poly(0, a));
    } else {
      var d := Poly(0, Double(a));
      DoubleIsTimesX(a);
      TimesLater(Poly(0, a), i - 1);
      RemainderShifted(Double(a), i - 1);
      DoublingsLater(i - 1, a);
      TimesAdd(d, MODULUS, i - 1);
      RemainderAdd(Times(d, i - 1), Times(MODULUS, i - 1), 8);
      MultipleVanishes(i - 1, 8);
      PlusNothing(Poly(0, Doublings(i, a)));
    }
  }

  lemma {:induction false} TimesNone(p: Poly)
    ensures Times(p, 0) == p
  {
  }

  lemma {:induction false} DoublingsLater(i: nat, a: Elem)
    ensures Doublings(i, Double(a)) == Doublings(i + 1, a)
  {
    hide Double;
    if i > 0 {
      DoublingsLater(i - 1, a);
    }
  }

  // ----- The table multiplication, bit by bit -----

  /** The part of b below x^n. */
  function Below(b: Elem, n: nat): Elem
    requires n <= 8
  {
    if n == 0 then 0 else if Bit(b, n - 1) then Add(Below(b, n - 1), Exp(n - 1)) else Below(b, n - 1)
  }

  lemma {:induction false} RemainderProduct(a: Elem, b: Elem, n: nat)
    requires n <= 8
    ensures Remainder(Product(a, b, n), 8) == Poly(0, Mul(a, Below(b, n)))
    decreases n
  {
    hide Bit, Times, Remainder, Mul, Exp, Add;
    if n == 0 {
      LowRemains(0, 8);
      MulZero(a, 0);
    } else {
      RemainderProduct(a, b, n - 1);
      RemainderAdd(Product(a, b, n - 1), Times(Poly(0, a), n - 1), 8);
      RemainderShifted(a, n - 1);
      MulAdd(a, Below(b, n - 1), Exp(n - 1));
      PowerTimes(a, n - 1);
      AddLaws(0, 0, 0);
    }
  }

  lemma {:induction false} PowerTimes(a: Elem, i: nat)
    requires i < 8
    ensures Mul(a, Exp(i)) == Doublings(i, a)
  {
    hide Exp, Mul, Log;
    LogExp(i);
    MulIsDoublings(Exp(i), a);
    MulCommutative(a, Exp(i));
  }

  lemma {:induction false} MaskSteps(b: Elem)
    ensures (if b & 0x01 != 0 then (b & 0x00) ^ 0x01 else b & 0x00) == b & 0x01
    ensures (if b & 0x02 != 0 then (b & 0x01) ^ 0x02 else b & 0x01) == b & 0x03
    ensures (if b & 0x04 != 0 then (b & 0x03) ^ 0x04 else b & 0x03) == b & 0x07
    ensures (if b & 0x08 != 0 then (b & 0x07) ^ 0x08 else b & 0x07) == b & 0x0F
    ensures (if b & 0x10 != 0 then (b & 0x0F) ^ 0x10 else b & 0x0F) == b & 0x1F
    ensures (if b & 0x20 != 0 then (b & 0x1F) ^ 0x20 else b & 0x1F) == b & 0x3F
    ensures (if b & 0x40 != 0 then (b & 0x3F) ^ 0x40 else b & 0x3F) == b & 0x7F
    ensures (if b & 0x80 != 0 then (b & 0x7F) ^ 0x80 else b & 0x7F) == b & 0xFF
  {
  }

  lemma {:induction false} EightPowers()
    ensures Exp(0) == 0x01 && Exp(1) == 0x02 && Exp(2) == 0x04 && Exp(3) == 0x08
    ensures Exp(4) == 0x10 && Exp(5) == 0x20 && Exp(6) == 0x40 && Exp(7) == 0x80
  {
    assert Exp(2) == 0x04;
    assert Exp(4) == 0x10;
    assert Exp(6) == 0x40;
  }

  function LowMask(n: nat): Elem
    requires n <= 8
  {
    match n
    case 0 => 0x00
    case 1 => 0x01
    case 2 => 0x03
    case 3 => 0x07
    case 4 => 0x0F
    case 5 => 0x1F
    case 6 => 0x3F
    case 7 => 0x7F
    case _ => 0xFF
  }

  lemma {:induction false} BelowIs(b: Elem, n: nat)
    requires n <= 8
    ensures Below(b, n) == b & LowMask(n)
    decreases n
  {
    hide Exp;
    if n > 0 {
      BelowIs(b, n - 1);
      EightPowers();
      MaskSteps(b);
    }
  }

  lemma {:induction false} BelowAll(b: Elem)
    ensures Below(b, 8) == b
  {
    hide Below;
    BelowIs(b, 8);
  }

  /** gf_mul is multiplication of polynomials modulo 0x11D, for all bytes. */
  lemma {:induction false} MulIsPolynomial(a: Elem, b: Elem)
    ensures Remainder(Product(a, b, 8), 8) == Poly(0, Mul(a, b))
  {
    hide Below, Product, Remainder, Mul;
    RemainderProduct(a, b, 8);
    BelowAll(b);
  }
}
