/**
 Cauchy parity rows are non-singular: no determinants, one elimination step and induction on the
 number of non-zero coordinates.

 Parity row i has entries 1 / (x_i + y_j).  If the rows numbered `xs` all annihilate `v`, then adding
 a multiple of one row to the others removes one coordinate of `v` and leaves rows of the same Cauchy
 shape, acting on a vector whose support is one smaller.
 */
module Cauchy {
  import opened Gf256
  import opened GfLinear

  function Point(i: nat): Elem
    requires i < 256
  {
    ByteOf(i)
  }

  lemma {:induction false} PointsDiffer(i: nat, j: nat)
    requires i < 256 && j < 256 && i != j
    ensures Point(i) != Point(j)
    ensures Add(Point(i), Point(j)) != 0
  {
    ByteOfValue(i);
    ByteOfValue(j);
    AddLaws(Point(i), Point(j), 0);
  }

  /** Row i of the parity matrix: the points are 0 .. m for rows and m .. m + k for columns. */
  function CauchyRow(k: nat, m: nat, i: nat): (row: Vec)
    requires k + m <= 255 && i < m
    ensures |row| == k
  {
    seq(k, j requires 0 <= j < k =>
      PointsDiffer(i, m + j);
      Inv(Add(Point(i), Point(m + j))))
  }

  // ----- Rearranging products -----

  lemma {:induction false} MulRotate(a: Elem, b: Elem, c: Elem)
    ensures Mul(a, Mul(b, c)) == Mul(b, Mul(a, c))
  {
    hide Mul;
    MulAssociative(a, b, c);
    MulAssociative(b, a, c);
    MulCommutative(a, b);
  }

  lemma {:induction false} MulPairs(a: Elem, b: Elem, c: Elem, d: Elem)
    ensures Mul(Mul(a, b), Mul(c, d)) == Mul(Mul(a, c), Mul(b, d))
  {
    hide Mul;
    MulAssociative(a, b, Mul(c, d));
    MulRotate(b, c, d);
    MulAssociative(a, c, Mul(b, d));
  }

  /** (p + q)(p + r) = qr + (p + q + r)p. */
  lemma {:induction false} ExpandProduct(p: Elem, q: Elem, r: Elem)
    ensures Mul(Add(p, q), Add(p, r)) == Add(Mul(q, r), Mul(Add(p, Add(q, r)), p))
  {
    hide Mul, Add;
    var pp, pr, qp, qr := Mul(p, p), Mul(p, r), Mul(q, p), Mul(q, r);
    MulAdd(Add(p, r), p, q);
    MulAdd(p, p, r);
    MulAdd(q, p, r);
    MulAdd(p, p, Add(q, r));
    MulAdd(p, q, r);
    MulCommutative(r, p);
    SumOfFour(pp, pr, qp, qr);
  }

  lemma {:induction false} SumOfFour(a: Elem, b: Elem, c: Elem, d: Elem)
    ensures Add(Add(a, b), Add(c, d)) == Add(d, Add(a, Add(c, b)))
  {
    hide Add;
    AddExchange(a, b, c, d);
    AddLaws(a, c, Add(b, d));
    AddLaws(c, b, d);
    AddLaws(a, Add(c, b), d);
    AddLaws(Add(a, Add(c, b)), d, 0);
  }

  /** 1/p + (p + q + r)/(qr) = (p + q)(p + r)/(pqr). */
  lemma {:induction false} PartialFractions(p: Elem, q: Elem, r: Elem)
    requires p != 0 && q != 0 && r != 0
    ensures Add(Inv(p), Mul(Add(p, Add(q, r)), Mul(Inv(q), Inv(r))))
         == Mul(Mul(Add(p, q), Add(p, r)), Mul(Inv(p), Mul(Inv(q), Inv(r))))
  {
    hide Mul, Add, Inv;
    var s := Add(p, Add(q, r));
    var pi, qri := Inv(p), Mul(Inv(q), Inv(r));
    ExpandProduct(p, q, r);
    MulAdd(Mul(pi, qri), Mul(q, r), Mul(s, p));
    // qr times the common denominator leaves 1/p
    MulRotate(Mul(q, r), pi, qri);
    MulPairs(q, r, Inv(q), Inv(r));
    MulInv(q);
    MulInv(r);
    MulOne(1);
    MulOne(pi);
    // sp times the common denominator leaves s/(qr)
    MulAssociative(s, p, Mul(pi, qri));
    MulAssociative(p, pi, qri);
    MulInv(p);
    MulOne(qri);
  }

  /** The elimination step on one coordinate `v`; p, q, r are x + y, x0 + y and x + y0. */
  lemma {:induction false} StepTerm(p: Elem, q: Elem, r: Elem, v: Elem)
    requires p != 0 && q != 0 && r != 0
    ensures Add(Mul(Inv(p), v), Mul(Mul(Add(p, Add(q, r)), Inv(r)), Mul(Inv(q), v)))
         == Mul(Mul(Add(p, q), Inv(r)), Mul(Inv(p), Mul(v, Mul(Add(p, r), Inv(q)))))
  {
    hide Mul, Add, Inv;
    var s, e, f := Add(p, Add(q, r)), Add(p, q), Add(p, r);
    var pi, qi, ri := Inv(p), Inv(q), Inv(r);
    // left-hand side is v times a partial fraction
    MulCommutative(qi, v);
    MulRotate(Mul(s, ri), v, qi);
    MulAssociative(s, ri, qi);
    MulCommutative(ri, qi);
    MulCommutative(pi, v);
    MulAdd(v, pi, Mul(s, Mul(qi, ri)));
    PartialFractions(p, q, r);
    // and so is the right-hand side
    MulRotate(pi, v, Mul(f, qi));
    MulRotate(Mul(e, ri), v, Mul(pi, Mul(f, qi)));
    MulRotate(pi, f, qi);
    MulPairs(e, ri, f, Mul(pi, qi));
    MulCommutative(ri, Mul(pi, qi));
    MulAssociative(pi, qi, ri);
  }

  // ----- The elimination step on a whole row -----

  lemma {:induction false} DotCombine(a: Vec, b: Vec, c: Elem, d: Elem, v: Vec, w: Vec, n: nat)
    requires n <= |a| && n <= |b| && n <= |v| && n <= |w|
    requires forall j :: 0 <= j < n ==>
      Add(Mul(a[j], v[j]), Mul(c, Mul(b[j], v[j]))) == Mul(d, Mul(a[j], w[j]))
    ensures Add(Dot(a, v, n), Mul(c, Dot(b, v, n))) == Mul(d, Dot(a, w, n))
  {
    hide Mul, Add;
    if n == 0 {
      MulZero(c, 0);
      MulZero(d, 0);
      AddLaws(0, 0, 0);
    } else {
      DotCombine(a, b, c, d, v, w, n - 1);
      var av, bv := Mul(a[n - 1], v[n - 1]), Mul(b[n - 1], v[n - 1]);
      MulAdd(c, Dot(b, v, n - 1), bv);
      AddExchange(Dot(a, v, n - 1), av, Mul(c, Dot(b, v, n - 1)), Mul(c, bv));
      MulAdd(d, Dot(a, w, n - 1), Mul(a[n - 1], w[n - 1]));
    }
  }

  lemma {:induction false} AddCancel(x: Elem, y: Elem, z: Elem)
    ensures Add(Add(x, y), Add(x, z)) == Add(y, z)
    ensures Add(Add(y, x), Add(z, x)) == Add(y, z)
  {
    hide Add;
    AddExchange(x, y, x, z);
    AddExchange(y, x, z, x);
    AddLaws(x, x, x);
    AddLaws(Add(y, z), 0, 0);
  }

  /** The vector the remaining rows act on once parity row i0 has removed coordinate j0. */
  ghost function Shrunk(v: Vec, m: nat, i0: nat, j0: nat): (w: Vec)
    requires |v| + m <= 255 && i0 < m && j0 < |v|
    ensures |w| == |v|
  {
    var x0, y0 := Point(i0), Point(m + j0);
    seq(|v|, j requires 0 <= j < |v| =>
      PointsDiffer(i0, m + j);
      Mul(v[j], Mul(Add(Point(m + j), y0), Inv(Add(x0, Point(m + j))))))
  }

  lemma {:induction false} RowActsOnShrunk(v: Vec, m: nat, i0: nat, j0: nat, i: nat)
    requires |v| + m <= 255 && i0 < m && j0 < |v| && i < m && i != i0
    requires Dot(CauchyRow(|v|, m, i0), v, |v|) == 0
    requires Dot(CauchyRow(|v|, m, i), v, |v|) == 0
    ensures Dot(CauchyRow(|v|, m, i), Shrunk(v, m, i0, j0), |v|) == 0
  {
    hide Mul, Add, Inv, Dot, Point;
    var k, w := |v|, Shrunk(v, m, i0, j0);
    var a, b := CauchyRow(k, m, i), CauchyRow(k, m, i0);
    var x, x0, y0 := Point(i), Point(i0), Point(m + j0);
    PointsDiffer(i, m + j0);
    PointsDiffer(i, i0);
    var r := Add(x, y0);
    var c, d := Mul(Add(x0, y0), Inv(r)), Mul(Add(x, x0), Inv(r));
    forall j | 0 <= j < k
      ensures Add(Mul(a[j], v[j]), Mul(c, Mul(b[j], v[j]))) == Mul(d, Mul(a[j], w[j]))
    {
      var y := Point(m + j);
      PointsDiffer(i, m + j);
      PointsDiffer(i0, m + j);
      var p, q := Add(x, y), Add(x0, y);
      StepTerm(p, q, r, v[j]);
      AddCancel(y, x, x0);
      AddCancel(x, y, y0);
      ThirdCorner(x, y, x0, y0);
    }
    DotCombine(a, b, c, d, v, w, k);
    MulZero(c, 0);
    AddLaws(0, 0, 0);
    MulInv(r);
    MulZero(Add(x, x0), Inv(r));
    MulZero(d, Dot(a, w, k));
  }

  lemma {:induction false} ThirdCorner(x: Elem, y: Elem, x0: Elem, y0: Elem)
    ensures Add(Add(x, y), Add(Add(x0, y), Add(x, y0))) == Add(x0, y0)
  {
    hide Add;
    AddLaws(Add(x0, y), Add(x, y0), 0);
    AddLaws(Add(x, y), Add(x, y0), Add(x0, y));
    AddCancel(x, y, y0);
    AddCancel(y, y0, x0);
    AddLaws(y, y0, 0);
    AddLaws(x0, y, 0);
    AddLaws(y0, x0, 0);
  }

  // ----- Counting non-zero coordinates -----

  ghost function Support(v: Vec, n: nat): (c: nat)
    requires n <= |v|
    ensures c <= n
  {
    if n == 0 then 0 else Support(v, n - 1) + (if v[n - 1] == 0 then 0 else 1)
  }

  lemma {:induction false} SupportZero(v: Vec, n: nat)
    requires n <= |v| && Support(v, n) == 0
    ensures forall j :: 0 <= j < n ==> v[j] == 0
  {
    if n > 0 {
      SupportZero(v, n - 1);
    }
  }

  lemma {:induction false} SupportDrops(v: Vec, w: Vec, j0: nat, n: nat)
    requires |v| == |w| && n <= |v| && j0 < |v|
    requires v[j0] != 0 && w[j0] == 0
    requires forall j :: 0 <= j < |v| && j != j0 ==> (w[j] == 0 <==> v[j] == 0)
    ensures Support(w, n) == Support(v, n) - (if j0 < n then 1 else 0)
  {
    if n > 0 {
      SupportDrops(v, w, j0, n - 1);
    }
  }

  /** Distinct coordinates known to be zero bound the support from above. */
  lemma {:induction false} SupportBound(v: Vec, zeros: seq<nat>)
    requires forall a :: 0 <= a < |zeros| ==> zeros[a] < |v| && v[zeros[a]] == 0
    requires forall a, b :: 0 <= a < b < |zeros| ==> zeros[a] != zeros[b]
    ensures Support(v, |v|) + |zeros| <= |v|
    decreases |zeros|
  {
    if zeros != [] {
      var j, rest := zeros[|zeros| - 1], zeros[..|zeros| - 1];
      var w := v[j := 1];
      SupportDrops(w, v, j, |v|);
      SupportBound(w, rest);
    }
  }

  lemma {:induction false} ShrunkSupport(v: Vec, m: nat, i0: nat, j0: nat)
    requires |v| + m <= 255 && i0 < m && j0 < |v| && v[j0] != 0
    ensures Shrunk(v, m, i0, j0)[j0] == 0
    ensures forall j :: 0 <= j < |v| && j != j0 ==> (Shrunk(v, m, i0, j0)[j] == 0 <==> v[j] == 0)
    ensures Support(Shrunk(v, m, i0, j0), |v|) == Support(v, |v|) - 1
  {
    hide Mul, Add, Inv, Point, Support;
    var x0, y0 := Point(i0), Point(m + j0);
    forall j | 0 <= j < |v|
      ensures Shrunk(v, m, i0, j0)[j] == 0 <==> v[j] == 0 || j == j0
    {
      var y := Point(m + j);
      PointsDiffer(i0, m + j);
      MulInv(Add(x0, y));
      if j == j0 {
        AddLaws(y, y0, 0);
      } else {
        PointsDiffer(m + j, m + j0);
      }
      MulZero(Add(y, y0), Inv(Add(x0, y)));
      MulZero(v[j], Mul(Add(y, y0), Inv(Add(x0, y))));
    }
    SupportDrops(v, Shrunk(v, m, i0, j0), j0, |v|);
  }

  lemma {:induction false} DotSingle(u: Vec, v: Vec, j0: nat, n: nat)
    requires n <= |u| && n <= |v| && j0 < |u| && j0 < |v|
    requires forall j :: 0 <= j < n && j != j0 ==> v[j] == 0
    ensures Dot(u, v, n) == if j0 < n then Mul(u[j0], v[j0]) else 0
  {
    hide Mul, Add;
    if n > 0 {
      DotSingle(u, v, j0, n - 1);
      MulZero(u[n - 1], v[n - 1]);
      AddLaws(Mul(u[j0], v[j0]), 0, 0);
      AddLaws(0, 0, 0);
    }
  }

  /** The entry is the inverse of the sum of its two points, the numbers i and m + j, and so not zero. */
  lemma {:induction false} CauchyEntry(k: nat, m: nat, i: nat, j: nat)
    requires k + m <= 255 && i < m && j < k
    ensures CauchyRow(k, m, i)[j] != 0
    ensures Point(i) as nat == i && Point(m + j) as nat == m + j
    ensures Mul(CauchyRow(k, m, i)[j], Add(Point(i), Point(m + j))) == 1
  {
    ByteOfValue(i);
    ByteOfValue(m + j);
    hide Add, Mul, Inv, Point;
    PointsDiffer(i, m + j);
    MulInv(Add(Point(i), Point(m + j)));
  }

  /**
   Any set of parity rows annihilates only those vectors with more non-zero coordinates than there
   are rows: every square Cauchy submatrix is non-singular.
   */
  lemma {:induction false} CauchyKernel(m: nat, xs: seq<nat>, v: Vec)
    requires |v| + m <= 255
    requires forall a :: 0 <= a < |xs| ==> xs[a] < m
    requires forall a, b :: 0 <= a < b < |xs| ==> xs[a] != xs[b]
    requires forall a :: 0 <= a < |xs| ==> Dot(CauchyRow(|v|, m, xs[a]), v, |v|) == 0
    requires Support(v, |v|) <= |xs|
    ensures IsZero(v)
    decreases |xs|
  {
    hide Mul, Add, Dot, Support, CauchyRow, Shrunk;
    if Support(v, |v|) == 0 {
      SupportZero(v, |v|);
    } else if j0: nat :| j0 < |v| && v[j0] != 0 {
      var i0, rest := xs[|xs| - 1], xs[..|xs| - 1];
      var w := Shrunk(v, m, i0, j0);
      forall a | 0 <= a < |rest| ensures Dot(CauchyRow(|v|, m, rest[a]), w, |v|) == 0 {
        RowActsOnShrunk(v, m, i0, j0, rest[a]);
      }
      ShrunkSupport(v, m, i0, j0);
      CauchyKernel(m, rest, w);
      DotSingle(CauchyRow(|v|, m, i0), v, j0, |v|);
      CauchyEntry(|v|, m, i0, j0);
      MulZero(CauchyRow(|v|, m, i0)[j0], v[j0]);
      assert false;
    }
  }
}
