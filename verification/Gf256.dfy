/**
 Arithmetic in GF(2^8) as the erasure codec does it: powers of the generator 2 under the polynomial
 0x11D, an exponent table and a logarithm table.

 The tables are read here through the functions Exp and Log; the method BuildTables is the loop that
 fills them, and its contract says the arrays hold exactly those functions.  Everything the codec
 needs of the field follows from one observation: multiplying by the i-th power of the generator is
 doubling i times, and doubling distributes over XOR.
 */
module Gf256 {
  import opened Collections


  type Elem = bv8

  /** Multiplication by the generator: shift left, and reduce by 0x1D when a bit falls off. */
  function Double(x: Elem): Elem {
    if x & 0x80 != 0 then (x << 1) ^ 0x1D else x << 1
  }

  /** The i-th power of the generator, as the table loop meets it. */
  function Exp(i: nat): Elem {
    if i == 0 then 1 else Double(Exp(i - 1))
  }

  /** The least exponent at or after `i` whose power is `x`; 254 if there is none below it. */
  function FindLog(x: Elem, i: nat): (r: nat)
    requires i <= 254
    ensures i <= r <= 254
    decreases 254 - i
  {
    if i == 254 || Exp(i) == x then i else FindLog(x, i + 1)
  }

  /** Entry `x` of the logarithm table; the loop leaves entry 0 at its initial value. */
  function Log(x: Elem): (r: nat)
    ensures r <= 254
  {
    if x == 0 then 0 else FindLog(x, 0)
  }

  /** Addition and subtraction of the field alike. */
  function Add(a: Elem, b: Elem): Elem {
    a ^ b
  }

  function Mul(a: Elem, b: Elem): Elem {
    if a == 0 || b == 0 then 0 else Exp((Log(a) + Log(b)) % 255)
  }

  function Inv(a: Elem): Elem
    requires a != 0
  {
    Exp((255 - Log(a)) % 255)
  }

  // ----- The table is a permutation of the non-zero elements -----

  /** Walking the powers five at a time meets every non-zero element before returning to 1. */
  lemma {:induction false} ExpCovers(x: Elem)
    ensures Exp(255) == 1
    ensures x != 0 ==> exists i: nat :: i < 255 && Exp(i) == x
  {
    assert Exp(5) == 32; assert Exp(10) == 116; assert Exp(15) == 38;
    assert Exp(20) == 180; assert Exp(25) == 3; assert Exp(30) == 96;
    assert Exp(35) == 156; assert Exp(40) == 106; assert Exp(45) == 193;
    assert Exp(50) == 5; assert Exp(55) == 160; assert Exp(60) == 185;
    assert Exp(65) == 190; assert Exp(70) == 94; assert Exp(75) == 15;
    assert Exp(80) == 253; assert Exp(85) == 214; assert Exp(90) == 223;
    assert Exp(95) == 226; assert Exp(100) == 17; assert Exp(105) == 26;
    assert Exp(110) == 103; assert Exp(115) == 124; assert Exp(120) == 59;
    assert Exp(125) == 51; assert Exp(130) == 46; assert Exp(135) == 169;
    assert Exp(140) == 132; assert Exp(145) == 77; assert Exp(150) == 85;
    assert Exp(155) == 114; assert Exp(160) == 230; assert Exp(165) == 145;
    assert Exp(170) == 215; assert Exp(175) == 255; assert Exp(180) == 150;
    assert Exp(185) == 55; assert Exp(190) == 174; assert Exp(195) == 100;
    assert Exp(200) == 28; assert Exp(205) == 167; assert Exp(210) == 89;
    assert Exp(215) == 239; assert Exp(220) == 172; assert Exp(225) == 36;
    assert Exp(230) == 244; assert Exp(235) == 235; assert Exp(240) == 44;
    assert Exp(245) == 233; assert Exp(250) == 108; assert Exp(255) == 1;
  }

  lemma {:induction false} FindLogFinds(x: Elem, i: nat, k: nat)
    requires i <= k < 255 && Exp(k) == x
    ensures Exp(FindLog(x, i)) == x && FindLog(x, i) <= k
    decreases 254 - i
  {
    if i < 254 && Exp(i) != x {
      FindLogFinds(x, i + 1, k);
    }
  }

  lemma {:induction false} ExpLog(x: Elem)
    requires x != 0
    ensures Exp(Log(x)) == x
  {
    ExpCovers(x);
    var k: nat :| k < 255 && Exp(k) == x;
    FindLogFinds(x, 0, k);
  }

  /** The byte whose value is n, for n below 256. */
  function ByteOf(n: nat): Elem {
    if n == 0 then 0 else ByteOf(n - 1) + 1
  }

  lemma {:induction false} NextByte(x: Elem)
    requires x as nat != 255
    ensures (x + 1) as nat == x as nat + 1
  {
  }

  lemma {:induction false} ByteOfValue(n: nat)
    requires n < 256
    ensures ByteOf(n) as nat == n
  {
    if n > 0 {
      ByteOfValue(n - 1);
      NextByte(ByteOf(n - 1));
    }
  }

  lemma {:induction false} ElemRoundTrip(x: Elem)
    ensures (x as nat) as Elem == x
  {
  }

  ghost function NewElement(n: nat, s: set<Elem>): (r: set<Elem>)
    requires 0 < n < 256
    requires forall x :: x in s ==> 1 <= x as nat < n
    ensures |r| == |s| + 1
    ensures forall x :: x in r ==> 1 <= x as nat <= n
  {
    ByteOfValue(n);
    assert ByteOf(n) !in s;
    s + {ByteOf(n)}
  }

  /** The elements numbered 1 to n. */
  ghost function Elements(n: nat): (s: set<Elem>)
    requires n <= 255
    ensures |s| == n
    ensures forall x :: x in s ==> 1 <= x as nat <= n
  {
    if n == 0 then {} else NewElement(n, Elements(n - 1))
  }

  /** The first n powers. */
  ghost function Powers(n: nat): (s: set<Elem>)
    ensures |s| <= n
    ensures forall i: nat :: i < n ==> Exp(i) in s
  {
    if n == 0 then {} else Powers(n - 1) + {Exp(n - 1)}
  }

  lemma {:induction false} PowersCycle(d: nat, i: nat)
    requires 0 < d && Exp(d) == 1
    ensures Exp(i) in Powers(d)
  {
    if i >= d {
      ExpAdd(i - d, d);
      DoublingsOne(i - d);
      PowersCycle(d, i - d);
    }
  }

  /** No smaller power than the 255th is 1: fewer than 255 powers could not cover 255 elements. */
  lemma {:induction false} OrderIs255(d: nat)
    requires 0 < d < 255
    ensures Exp(d) != 1
  {
    hide Double;
    if Exp(d) == 1 {
      forall x | x in Elements(255) ensures x in Powers(d) {
        ExpCovers(x);
        var i: nat :| i < 255 && Exp(i) == x;
        PowersCycle(d, i);
      }
      SubsetSize(Elements(255), Powers(d));
    }
  }

  lemma {:induction false} ExpCancel(i: nat, j: nat)
    requires i <= j && Exp(i) == Exp(j)
    ensures Exp(j - i) == 1
  {
    if i > 0 {
      DoubleInjective(Exp(i - 1), Exp(j - 1));
      ExpCancel(i - 1, j - 1);
    }
  }

  lemma {:induction false} ExpInjective(i: nat, j: nat)
    requires i < 255 && j < 255 && Exp(i) == Exp(j)
    ensures i == j
  {
    if i != j {
      var lo, hi := if i < j then i else j, if i < j then j else i;
      ExpCancel(lo, hi);
      OrderIs255(hi - lo);
    }
  }

  lemma {:induction false} ExpNonZero(i: nat)
    ensures Exp(i) != 0
  {
    if i > 0 {
      ExpNonZero(i - 1);
      DoubleNonZero(Exp(i - 1));
    }
  }

  lemma {:induction false} LogExp(i: nat)
    requires i < 255
    ensures Exp(i) != 0 && Log(Exp(i)) == i
  {
    ExpNonZero(i);
    ExpLog(Exp(i));
    ExpInjective(Log(Exp(i)), i);
  }

  /** Where the loop files `x` in the logarithm table. */
  function Slot(x: Elem): (r: nat)
    ensures r < 256
  {
    x as nat
  }

  lemma {:induction false} SlotInjective(x: Elem, y: Elem)
    requires Slot(x) == Slot(y)
    ensures x == y
  {
    ElemRoundTrip(x);
    ElemRoundTrip(y);
  }

  /** The i-th power lands in a slot of the logarithm table that no earlier one used. */
  lemma {:induction false} FreshSlot(i: nat)
    requires i < 255
    ensures Slot(Exp(i)) != Slot(0)
    ensures forall j: nat :: j < i ==> Slot(Exp(j)) != Slot(Exp(i))
    ensures Exp(i + 1) == Double(Exp(i))
  {
    hide Double, Slot;
    ExpNonZero(i);
    if Slot(Exp(i)) == Slot(0) {
      SlotInjective(Exp(i), 0);
    }
    forall j: nat | j < i ensures Slot(Exp(j)) != Slot(Exp(i)) {
      if Slot(Exp(j)) == Slot(Exp(i)) {
        SlotInjective(Exp(j), Exp(i));
        ExpInjective(j, i);
      }
    }
  }

  /**
   The compile-time table loop.  Both tables are full and mutually inverse on the non-zero elements;
   the one unused entry of each keeps its initial zero.
   */
  method BuildTables() returns (exps: seq<Elem>, logs: seq<nat>)
    ensures |exps| == 256 && |logs| == 256
    ensures forall i: nat :: i < 255 ==> exps[i] == Exp(i) && exps[i] != 0 && logs[Slot(exps[i])] == i
    ensures forall x: Elem :: x != 0 ==> logs[Slot(x)] == Log(x) && exps[logs[Slot(x)]] == x
    ensures exps[255] == 0 && logs[Slot(0)] == 0
  {
    hide Double, Exp, Log, Slot;
    var exp := new Elem[256](_ => 0);
    var log := new nat[256](_ => 0);
    var x: Elem := 1;
    var i := 0;
    ExpZero();
    while i < 255
      invariant 0 <= i <= 255
      invariant x == Exp(i)
      invariant forall j: nat :: j < i ==> exp[j] == Exp(j)
      invariant forall j: nat :: j < i ==> log[Slot(Exp(j))] == j
      invariant exp[255] == 0 && log[Slot(0)] == 0
    {
      FreshSlot(i);
      exp[i] := x;
      log[Slot(x)] := i;
      x := Double(x);
      i := i + 1;
    }
    exps, logs := exp[..], log[..];
    forall y: Elem | y != 0 ensures logs[Slot(y)] == Log(y) && exps[logs[Slot(y)]] == y {
      ExpLog(y);
      assert log[Slot(Exp(Log(y)))] == Log(y);
    }
    forall j: nat | j < 255 ensures exps[j] != 0 {
      ExpNonZero(j);
    }
  }

  lemma {:induction false} ExpZero()
    ensures Exp(0) == 1
  {
  }

  // ----- Multiplication is repeated doubling -----

  /** Doubling i times. */
  ghost function Doublings(i: nat, x: Elem): Elem {
    if i == 0 then x else Double(Doublings(i - 1, x))
  }

  lemma {:induction false} ShiftXor(x: Elem, y: Elem)
    ensures (x ^ y) << 1 == (x << 1) ^ (y << 1)
    ensures (x ^ y) & 0x80 == (x & 0x80) ^ (y & 0x80)
  {
  }

  lemma {:induction false} TopBit(x: Elem)
    ensures x & 0x80 == 0 || x & 0x80 == 0x80
  {
  }

  lemma {:induction false} DoubleAdd(x: Elem, y: Elem)
    ensures Double(Add(x, y)) == Add(Double(x), Double(y))
  {
    ShiftXor(x, y);
    TopBit(x);
    TopBit(y);
  }

  lemma {:induction false} DoubleInjective(x: Elem, y: Elem)
    requires Double(x) == Double(y)
    ensures x == y
  {
  }

  lemma {:induction false} DoubleNonZero(x: Elem)
    requires x != 0
    ensures Double(x) != 0
  {
  }

  lemma {:induction false} DoublingsAdd(i: nat, x: Elem, y: Elem)
    ensures Doublings(i, Add(x, y)) == Add(Doublings(i, x), Doublings(i, y))
  {
    hide Double, Add;
    if i > 0 {
      DoublingsAdd(i - 1, x, y);
      DoubleAdd(Doublings(i - 1, x), Doublings(i - 1, y));
    }
  }

  lemma {:induction false} DoublingsZero(i: nat)
    ensures Doublings(i, 0) == 0
  {
    if i > 0 {
      DoublingsZero(i - 1);
    }
  }

  lemma {:induction false} DoublingsOne(i: nat)
    ensures Doublings(i, 1) == Exp(i)
  {
    if i > 0 {
      DoublingsOne(i - 1);
    }
  }

  lemma {:induction false} ExpAdd(i: nat, j: nat)
    ensures Exp(i + j) == Doublings(i, Exp(j))
  {
    if i > 0 {
      ExpAdd(i - 1, j);
    }
  }

  lemma {:induction false} ExpMod(n: nat)
    ensures Exp(n % 255) == Exp(n)
  {
    hide Double, Doublings;
    if n >= 255 {
      ExpCovers(0);
      ExpAdd(n - 255, 255);
      DoublingsOne(n - 255);
      ExpMod(n - 255);
      assert n % 255 == (n - 255) % 255;
    }
  }

  lemma {:induction false} MulIsDoublings(a: Elem, b: Elem)
    requires a != 0
    ensures Mul(a, b) == Doublings(Log(a), b)
  {
    hide Double, Exp, Log, Doublings;
    if b == 0 {
      DoublingsZero(Log(a));
    } else {
      ExpMod(Log(a) + Log(b));
      ExpAdd(Log(a), Log(b));
      ExpLog(b);
    }
  }

  // ----- The field laws -----

  lemma {:induction false} AddLaws(a: Elem, b: Elem, c: Elem)
    ensures Add(a, b) == Add(b, a)
    ensures Add(Add(a, b), c) == Add(a, Add(b, c))
    ensures Add(a, 0) == a && Add(0, a) == a
    ensures Add(a, a) == 0
    ensures Add(a, b) == 0 <==> a == b
  {
  }

  lemma {:induction false} MulCommutative(a: Elem, b: Elem)
    ensures Mul(a, b) == Mul(b, a)
  {
    hide Double, Exp, Log;
  }

  lemma {:induction false} MulAdd(a: Elem, b: Elem, c: Elem)
    ensures Mul(a, Add(b, c)) == Add(Mul(a, b), Mul(a, c))
    ensures Mul(Add(b, c), a) == Add(Mul(b, a), Mul(c, a))
  {
    hide Double, Exp, Log, Doublings, Add;
    if a == 0 {
      AddLaws(0, 0, 0);
    } else {
      MulIsDoublings(a, Add(b, c));
      MulIsDoublings(a, b);
      MulIsDoublings(a, c);
      DoublingsAdd(Log(a), b, c);
    }
    MulCommutative(a, Add(b, c));
    MulCommutative(a, b);
    MulCommutative(a, c);
  }

  lemma {:induction false} MulLog(a: Elem, b: Elem)
    requires a != 0 && b != 0
    ensures Mul(a, b) != 0
    ensures Log(Mul(a, b)) == (Log(a) + Log(b)) % 255
  {
    hide Double, Exp, Log;
    LogExp((Log(a) + Log(b)) % 255);
  }

  lemma {:induction false} Wrap(n: nat)
    requires n < 510
    ensures n % 255 == if n < 255 then n else n - 255
  {
  }

  lemma {:induction false} ModSum(i: nat, j: nat, k: nat)
    requires i < 255 && j < 255 && k < 255
    ensures ((i + j) % 255 + k) % 255 == (i + (j + k) % 255) % 255
  {
    Wrap(i + j);
    Wrap(j + k);
    Wrap((i + j) % 255 + k);
    Wrap(i + (j + k) % 255);
  }

  lemma {:induction false} MulAssociative(a: Elem, b: Elem, c: Elem)
    ensures Mul(Mul(a, b), c) == Mul(a, Mul(b, c))
  {
    hide Double, Exp, Log;
    if a != 0 && b != 0 && c != 0 {
      MulLog(a, b);
      MulLog(b, c);
      ModSum(Log(a), Log(b), Log(c));
    }
  }

  lemma {:induction false} MulOne(a: Elem)
    ensures Mul(a, 1) == a && Mul(1, a) == a
  {
    hide Double, Log;
    LogExp(0);
    if a != 0 {
      ExpLog(a);
    }
  }

  lemma {:induction false} MulInv(a: Elem)
    requires a != 0
    ensures Inv(a) != 0
    ensures Mul(a, Inv(a)) == 1 && Mul(Inv(a), a) == 1
  {
    hide Double, Log;
    var e := (255 - Log(a)) % 255;
    LogExp(e);
    LogExp(0);
    assert (Log(a) + e) % 255 == 0;
  }

  lemma {:induction false} MulZero(a: Elem, b: Elem)
    ensures Mul(a, b) == 0 <==> a == 0 || b == 0
  {
    if a != 0 && b != 0 {
      MulLog(a, b);
    }
  }
}
