/**
 Vectors and matrices over GF(2^8), and the three row operations of Gauss-Jordan elimination.
 */
module GfLinear {
  import opened Gf256

  type Vec = seq<Elem>
  type Matrix = seq<Vec>

  ghost predicate IsMatrix(a: Matrix, rows: nat, cols: nat) {
    |a| == rows && forall r :: 0 <= r < rows ==> |a[r]| == cols
  }

  /** The sum of the first n products, in the order the codec's loops accumulate them. */
  function Dot(u: Vec, v: Vec, n: nat): Elem
    requires n <= |u| && n <= |v|
  {
    if n == 0 then 0 else Add(Dot(u, v, n - 1), Mul(u[n - 1], v[n - 1]))
  }

  function Scaled(u: Vec, p: Elem): (w: Vec)
    ensures |w| == |u|
  {
    seq(|u|, i requires 0 <= i < |u| => Mul(u[i], p))
  }

  /** `u` with `f` times `w` added, the elimination of one row by another. */
  function Eliminated(u: Vec, f: Elem, w: Vec): (r: Vec)
    requires |u| == |w|
    ensures |r| == |u|
  {
    seq(|u|, i requires 0 <= i < |u| => Add(u[i], Mul(f, w[i])))
  }

  function Unit(n: nat, i: nat): (w: Vec)
    ensures |w| == n
  {
    seq(n, j => if j == i then 1 else 0)
  }

  function Identity(n: nat): (a: Matrix)
    ensures IsMatrix(a, n, n)
  {
    seq(n, i requires 0 <= i < n => Unit(n, i))
  }

  /** The matrix applied to a column vector. */
  function Apply(a: Matrix, v: Vec): (w: Vec)
    requires IsMatrix(a, |a|, |v|)
    ensures |w| == |a|
  {
    seq(|a|, r requires 0 <= r < |a| => Dot(a[r], v, |v|))
  }

  ghost predicate IsZero(v: Vec) {
    forall i :: 0 <= i < |v| ==> v[i] == 0
  }

  lemma {:induction false} DotScaled(u: Vec, p: Elem, v: Vec, n: nat)
    requires n <= |u| && n <= |v|
    ensures Dot(Scaled(u, p), v, n) == Mul(p, Dot(u, v, n))
  {
    hide Add, Mul;
    if n == 0 {
      MulZero(p, 0);
    } else {
      DotScaled(u, p, v, n - 1);
      MulAdd(p, Dot(u, v, n - 1), Mul(u[n - 1], v[n - 1]));
      MulCommutative(u[n - 1], p);
      MulAssociative(p, u[n - 1], v[n - 1]);
    }
  }

  lemma {:induction false} DotEliminated(u: Vec, f: Elem, w: Vec, v: Vec, n: nat)
    requires |u| == |w| && n <= |u| && n <= |v|
    ensures Dot(Eliminated(u, f, w), v, n) == Add(Dot(u, v, n), Mul(f, Dot(w, v, n)))
  {
    hide Add, Mul;
    if n == 0 {
      MulZero(f, 0);
      AddLaws(0, 0, 0);
    } else {
      var a, b, x := u[n - 1], w[n - 1], v[n - 1];
      DotEliminated(u, f, w, v, n - 1);
      MulAdd(x, a, Mul(f, b));
      MulAssociative(f, b, x);
      MulAdd(f, Dot(w, v, n - 1), Mul(b, x));
      AddExchange(Dot(u, v, n - 1), Mul(f, Dot(w, v, n - 1)), Mul(a, x), Mul(f, Mul(b, x)));
    }
  }

  lemma {:induction false} AddExchange(a: Elem, b: Elem, c: Elem, d: Elem)
    ensures Add(Add(a, b), Add(c, d)) == Add(Add(a, c), Add(b, d))
  {
    hide Add;
    AddLaws(a, b, Add(c, d));
    AddLaws(b, c, d);
    AddLaws(c, b, d);
    AddLaws(a, c, Add(b, d));
  }

  lemma {:induction false} DotUnit(u: Vec, i: nat, v: Vec, n: nat)
    requires n <= |u| && n <= |v|
    requires forall j :: 0 <= j < n ==> u[j] == if j == i then 1 else 0
    ensures Dot(u, v, n) == if i < n then v[i] else 0
  {
    hide Add, Mul;
    if n > 0 {
      DotUnit(u, i, v, n - 1);
      var x := v[n - 1];
      MulOne(x);
      MulZero(0, x);
      AddLaws(x, 0, 0);
      AddLaws(Dot(u, v, n - 1), 0, 0);
    }
  }

  lemma {:induction false} DotZero(u: Vec, v: Vec, n: nat)
    requires n <= |u| && n <= |v|
    requires forall i :: 0 <= i < n ==> u[i] == 0 || v[i] == 0
    ensures Dot(u, v, n) == 0
  {
    hide Add, Mul;
    if n > 0 {
      DotZero(u, v, n - 1);
      MulZero(u[n - 1], v[n - 1]);
      AddLaws(0, 0, 0);
    }
  }

  function Sum(v: Vec, w: Vec): (r: Vec)
    requires |v| == |w|
    ensures |r| == |v|
  {
    seq(|v|, i requires 0 <= i < |v| => Add(v[i], w[i]))
  }

  lemma {:induction false} DotSum(u: Vec, v: Vec, w: Vec, n: nat)
    requires |v| == |w| && n <= |u| && n <= |v|
    ensures Dot(u, Sum(v, w), n) == Add(Dot(u, v, n), Dot(u, w, n))
  {
    hide Add, Mul;
    if n == 0 {
      AddLaws(0, 0, 0);
    } else {
      DotSum(u, v, w, n - 1);
      MulAdd(u[n - 1], v[n - 1], w[n - 1]);
      AddExchange(Dot(u, v, n - 1), Dot(u, w, n - 1), Mul(u[n - 1], v[n - 1]), Mul(u[n - 1], w[n - 1]));
    }
  }

  lemma {:induction false} SumZero(v: Vec, w: Vec)
    requires |v| == |w|
    ensures IsZero(Sum(v, w)) <==> v == w
  {
    hide Add;
    forall i | 0 <= i < |v| ensures Sum(v, w)[i] == 0 <==> v[i] == w[i] {
      AddLaws(v[i], w[i], 0);
    }
  }

  // ----- Row operations and the kernel -----

  function Swapped(a: Matrix, i: nat, j: nat): (b: Matrix)
    requires i < |a| && j < |a|
    ensures |b| == |a|
  {
    a[i := a[j]][j := a[i]]
  }

  /** Where row r of the swapped matrix comes from. */
  function Partner(i: nat, j: nat, r: nat): nat {
    if r == i then j else if r == j then i else r
  }

  ghost predicate SameKernel(a: Matrix, b: Matrix, n: nat)
    requires IsMatrix(a, n, n) && IsMatrix(b, n, n)
  {
    forall v: Vec {:trigger Apply(a, v)} :: |v| == n ==> (IsZero(Apply(a, v)) <==> IsZero(Apply(b, v)))
  }

  lemma {:induction false} SwapKernel(a: Matrix, i: nat, j: nat, v: Vec)
    requires IsMatrix(a, |a|, |v|) && i < |a| && j < |a|
    ensures IsZero(Apply(Swapped(a, i, j), v)) <==> IsZero(Apply(a, v))
  {
    hide Dot;
    var x, y := Apply(a, v), Apply(Swapped(a, i, j), v);
    forall r | 0 <= r < |a| ensures y[r] == x[Partner(i, j, r)] && x[r] == y[Partner(i, j, r)] {
    }
  }

  lemma {:induction false} ScaleKernel(a: Matrix, i: nat, p: Elem, v: Vec)
    requires IsMatrix(a, |a|, |v|) && i < |a| && p != 0
    ensures IsZero(Apply(a[i := Scaled(a[i], p)], v)) <==> IsZero(Apply(a, v))
  {
    hide Add, Mul, Dot;
    var b := a[i := Scaled(a[i], p)];
    DotScaled(a[i], p, v, |v|);
    MulZero(p, Dot(a[i], v, |v|));
    forall r | 0 <= r < |a| ensures Apply(b, v)[r] == 0 <==> Apply(a, v)[r] == 0 {
    }
  }

  lemma {:induction false} EliminateKernel(a: Matrix, i: nat, f: Elem, j: nat, v: Vec)
    requires IsMatrix(a, |a|, |v|) && i < |a| && j < |a| && i != j
    ensures IsZero(Apply(a[i := Eliminated(a[i], f, a[j])], v)) <==> IsZero(Apply(a, v))
  {
    hide Add, Mul, Dot;
    var b := a[i := Eliminated(a[i], f, a[j])];
    var di, dj := Dot(a[i], v, |v|), Dot(a[j], v, |v|);
    DotEliminated(a[i], f, a[j], v, |v|);
    MulZero(f, dj);
    AddLaws(di, 0, 0);
    assert Apply(b, v)[j] == dj && Apply(a, v)[j] == dj;
    assert Apply(b, v)[i] == Add(di, Mul(f, dj)) && Apply(a, v)[i] == di;
    forall r | 0 <= r < |a| && r != i ensures Apply(b, v)[r] == Apply(a, v)[r] {
    }
  }

  lemma {:induction false} SwapSameKernel(a: Matrix, i: nat, j: nat, n: nat)
    requires IsMatrix(a, n, n) && i < n && j < n
    ensures SameKernel(Swapped(a, i, j), a, n)
  {
    hide Apply, IsZero;
    var b := Swapped(a, i, j);
    forall v: Vec {:trigger Apply(b, v)} | |v| == n ensures IsZero(Apply(b, v)) <==> IsZero(Apply(a, v)) {
      SwapKernel(a, i, j, v);
    }
  }

  lemma {:induction false} ScaleSameKernel(a: Matrix, i: nat, p: Elem, n: nat)
    requires IsMatrix(a, n, n) && i < n && p != 0
    ensures SameKernel(a[i := Scaled(a[i], p)], a, n)
  {
    hide Apply, IsZero, Scaled;
    var b := a[i := Scaled(a[i], p)];
    forall v: Vec {:trigger Apply(b, v)} | |v| == n ensures IsZero(Apply(b, v)) <==> IsZero(Apply(a, v)) {
      ScaleKernel(a, i, p, v);
    }
  }

  lemma {:induction false} EliminateSameKernel(a: Matrix, i: nat, f: Elem, j: nat, n: nat)
    requires IsMatrix(a, n, n) && i < n && j < n && i != j
    ensures SameKernel(a[i := Eliminated(a[i], f, a[j])], a, n)
  {
    hide Apply, IsZero, Eliminated;
    var b := a[i := Eliminated(a[i], f, a[j])];
    forall v: Vec {:trigger Apply(b, v)} | |v| == n ensures IsZero(Apply(b, v)) <==> IsZero(Apply(a, v)) {
      EliminateKernel(a, i, f, j, v);
    }
  }
}
