/**
 The systematic Reed-Solomon erasure codec: k data shards, m parity shards, and recovery of the data
 from any k of the k + m.
 */
module Erasure {
  import opened Collections
  import opened Wrappers
  import opened Gf256
  import opened GfLinear
  import opened Cauchy

  datatype ErasureError = BadParams | WrongShardCount | RaggedShards | NotEnoughShards | BadShardIndex

  datatype Rs = Rs(k: nat, m: nat, cauchy: Matrix)

  ghost predicate IsCodec(rs: Rs) {
    && rs.k >= 1 && rs.m >= 1 && rs.k + rs.m <= 255
    && |rs.cauchy| == rs.m
    && forall i :: 0 <= i < rs.m ==> rs.cauchy[i] == CauchyRow(rs.k, rs.m, i)
  }

  method New(k: nat, m: nat) returns (r: Result<Rs, ErasureError>)
    ensures r.Err? <==> k < 1 || m < 1 || k + m > 255
    ensures r.Err? ==> r.error == BadParams
    ensures r.Ok? ==> r.value.k == k && r.value.m == m && IsCodec(r.value)
  {
    hide Add, Inv, Point;
    if k < 1 || m < 1 || k + m > 255 {
      return Err(BadParams);
    }
    var cauchy: Matrix := [];
    for i := 0 to m
      invariant |cauchy| == i
      invariant forall a :: 0 <= a < i ==> cauchy[a] == CauchyRow(k, m, a)
    {
      var row: Vec := [];
      for j := 0 to k
        invariant |row| == j
        invariant forall b :: 0 <= b < j ==> row[b] == CauchyRow(k, m, i)[b]
      {
        PointsDiffer(i, m + j);
        row := row + [Inv(Add(Point(i), Point(m + j)))];
      }
      assert row == CauchyRow(k, m, i);
      cauchy := cauchy + [row];
    }
    return Ok(Rs(k, m, cauchy));
  }

  // ----- Inversion by Gauss-Jordan elimination -----

  /** Every row of `left` is the same row of `right` applied to `a`: left = right * a. */
  ghost predicate Tracks(left: Matrix, right: Matrix, a: Matrix, n: nat)
    requires IsMatrix(left, n, n) && IsMatrix(right, n, n) && IsMatrix(a, n, n)
  {
    forall v: Vec, r: nat {:trigger Dot(left[r], v, n)} ::
      |v| == n && r < n ==> Dot(left[r], v, n) == Dot(right[r], Apply(a, v), n)
  }

  ghost predicate KernelFrom(b: Matrix, a: Matrix, n: nat)
    requires IsMatrix(a, n, n) && IsMatrix(b, n, n)
  {
    forall v: Vec {:trigger Apply(b, v)} :: |v| == n && IsZero(Apply(b, v)) ==> IsZero(Apply(a, v))
  }

  ghost predicate Singular(a: Matrix)
    requires IsMatrix(a, |a|, |a|)
  {
    exists v: Vec {:trigger Apply(a, v)} :: |v| == |a| && !IsZero(v) && IsZero(Apply(a, v))
  }

  /** The first `col` columns are those of the identity. */
  ghost predicate Cleared(a: Matrix, n: nat, col: nat)
    requires IsMatrix(a, n, n) && col <= n
  {
    forall r, c :: 0 <= r < n && 0 <= c < col ==> a[r][c] == if r == c then 1 else 0
  }

  /** What every step of the elimination keeps, `a` being the matrix it started from. */
  ghost predicate Reducing(left: Matrix, right: Matrix, a: Matrix, n: nat) {
    && IsMatrix(left, n, n) && IsMatrix(right, n, n) && IsMatrix(a, n, n)
    && Tracks(left, right, a, n)
    && KernelFrom(left, a, n)
    && KernelFrom(right, Identity(n), n)
  }

  lemma {:induction false} ReducingStart(a: Matrix, n: nat)
    requires IsMatrix(a, n, n)
    ensures Reducing(a, Identity(n), a, n)
  {
    hide Add, Mul;
    forall v: Vec, r: nat | |v| == n && r < n
      ensures Dot(a[r], v, n) == Dot(Identity(n)[r], Apply(a, v), n)
    {
      DotUnit(Identity(n)[r], r, Apply(a, v), n);
    }
  }

  lemma {:induction false} KernelFromTransfer(b: Matrix, c: Matrix, a: Matrix, n: nat)
    requires IsMatrix(a, n, n) && IsMatrix(b, n, n) && IsMatrix(c, n, n)
    requires KernelFrom(b, a, n)
    requires SameKernel(c, b, n)
    ensures KernelFrom(c, a, n)
  {
    hide Apply, IsZero;
  }

  lemma {:induction false} ReducingSwap(left: Matrix, right: Matrix, a: Matrix, n: nat, i: nat, j: nat)
    requires Reducing(left, right, a, n) && i < n && j < n
    ensures Reducing(Swapped(left, i, j), Swapped(right, i, j), a, n)
  {
    hide Dot, Apply, IsZero, Identity;
    var l, r := Swapped(left, i, j), Swapped(right, i, j);
    assert IsMatrix(l, n, n) && IsMatrix(r, n, n);
    SwapSameKernel(left, i, j, n);
    SwapSameKernel(right, i, j, n);
    KernelFromTransfer(left, l, a, n);
    KernelFromTransfer(right, r, Identity(n), n);
    assert Tracks(l, r, a, n) by {
      forall v: Vec, q: nat | |v| == n && q < n ensures Dot(l[q], v, n) == Dot(r[q], Apply(a, v), n) {
        assert l[q] == left[Partner(i, j, q)] && r[q] == right[Partner(i, j, q)];
      }
    }
  }

  lemma {:induction false} ReducingScale(left: Matrix, right: Matrix, a: Matrix, n: nat, i: nat, p: Elem)
    requires Reducing(left, right, a, n) && i < n && p != 0
    ensures Reducing(left[i := Scaled(left[i], p)], right[i := Scaled(right[i], p)], a, n)
  {
    hide Dot, Mul, Apply, IsZero, Identity, Scaled;
    var l, r := left[i := Scaled(left[i], p)], right[i := Scaled(right[i], p)];
    ScaleSameKernel(left, i, p, n);
    ScaleSameKernel(right, i, p, n);
    KernelFromTransfer(left, l, a, n);
    KernelFromTransfer(right, r, Identity(n), n);
    forall v: Vec, q: nat | |v| == n && q < n ensures Dot(l[q], v, n) == Dot(r[q], Apply(a, v), n) {
      DotScaled(left[i], p, v, n);
      DotScaled(right[i], p, Apply(a, v), n);
      assert Dot(left[q], v, n) == Dot(right[q], Apply(a, v), n);
    }
  }

  lemma {:induction false} ReducingEliminate(left: Matrix, right: Matrix, a: Matrix, n: nat, i: nat, f: Elem, j: nat)
    requires Reducing(left, right, a, n) && i < n && j < n && i != j
    ensures Reducing(left[i := Eliminated(left[i], f, left[j])],
                     right[i := Eliminated(right[i], f, right[j])], a, n)
  {
    hide Dot, Mul, Add, Apply, IsZero, Identity, Eliminated;
    var l := left[i := Eliminated(left[i], f, left[j])];
    var r := right[i := Eliminated(right[i], f, right[j])];
    EliminateSameKernel(left, i, f, j, n);
    EliminateSameKernel(right, i, f, j, n);
    KernelFromTransfer(left, l, a, n);
    KernelFromTransfer(right, r, Identity(n), n);
    forall v: Vec, q: nat | |v| == n && q < n ensures Dot(l[q], v, n) == Dot(r[q], Apply(a, v), n) {
      DotEliminated(left[i], f, left[j], v, n);
      DotEliminated(right[i], f, right[j], Apply(a, v), n);
      assert Dot(left[q], v, n) == Dot(right[q], Apply(a, v), n);
      assert Dot(left[j], v, n) == Dot(right[j], Apply(a, v), n);
    }
  }

  /** A column with no pivot gives a vector that `a` sends to zero. */
  lemma {:induction false} NoPivot(left: Matrix, right: Matrix, a: Matrix, n: nat, col: nat)
    requires Reducing(left, right, a, n) && col < n && |a| == n
    requires Cleared(left, n, col)
    requires forall r :: col <= r < n ==> left[r][col] == 0
    ensures Singular(a)
  {
    hide Mul, Add, Dot;
    var v := seq(n, j requires 0 <= j < n => if j < col then left[j][col] else if j == col then 1 else 0);
    assert v[col] != 0;
    forall r | 0 <= r < n ensures Dot(left[r], v, n) == 0 {
      DotUnit(left[r], r, v, col);
      DotTail(left[r], v, col + 1, n);
      DotLast(left[r], v, col);
      MulOne(left[r][col]);
      AddLaws(left[r][col], 0, 0);
      AddLaws(0, 0, 0);
    }
    assert IsZero(Apply(left, v));
    assert IsZero(Apply(a, v));
  }

  lemma {:induction false} DotLast(u: Vec, v: Vec, n: nat)
    requires n < |u| && n < |v|
    ensures Dot(u, v, n + 1) == Add(Dot(u, v, n), Mul(u[n], v[n]))
  {
    hide Add, Mul;
  }

  lemma {:induction false} DotTail(u: Vec, v: Vec, m: nat, n: nat)
    requires m <= n <= |u| && n <= |v|
    requires forall i :: m <= i < n ==> v[i] == 0
    ensures Dot(u, v, n) == Dot(u, v, m)
  {
    hide Add, Mul;
    if m < n {
      DotTail(u, v, m, n - 1);
      MulZero(u[n - 1], v[n - 1]);
      AddLaws(Dot(u, v, n - 1), 0, 0);
    }
  }

  /** When the left half has become the identity, the right half is an inverse on both sides. */
  lemma {:induction false} ReducedInverts(left: Matrix, right: Matrix, a: Matrix, n: nat, v: Vec)
    requires Reducing(left, right, a, n) && Cleared(left, n, n) && |v| == n
    ensures Apply(right, Apply(a, v)) == v
    ensures Apply(a, Apply(right, v)) == v
  {
    hide Mul, Add, Dot;
    LeftInverse(left, right, a, n, v);
    var u := Apply(right, v);
    LeftInverse(left, right, a, n, u);
    var w := Apply(a, u);
    forall r | 0 <= r < n ensures Apply(right, Sum(w, v))[r] == 0 {
      DotSum(right[r], w, v, n);
      assert Apply(right, w)[r] == Apply(right, v)[r];
      AddLaws(Dot(right[r], w, n), Dot(right[r], v, n), 0);
    }
    assert IsZero(Apply(right, Sum(w, v)));
    forall r | 0 <= r < n ensures Sum(w, v)[r] == 0 {
      assert Apply(Identity(n), Sum(w, v))[r] == 0;
      DotUnit(Identity(n)[r], r, Sum(w, v), n);
    }
    SumZero(w, v);
  }

  lemma {:induction false} LeftInverse(left: Matrix, right: Matrix, a: Matrix, n: nat, v: Vec)
    requires Reducing(left, right, a, n) && Cleared(left, n, n) && |v| == n
    ensures Apply(right, Apply(a, v)) == v
  {
    hide Mul, Add, Dot;
    forall r | 0 <= r < n ensures Apply(right, Apply(a, v))[r] == v[r] {
      DotUnit(left[r], r, v, n);
    }
  }

  lemma {:induction false} ClearedScale(a: Matrix, n: nat, col: nat, p: Elem)
    requires IsMatrix(a, n, n) && col < n && Cleared(a, n, col)
    ensures IsMatrix(a[col := Scaled(a[col], p)], n, n) && Cleared(a[col := Scaled(a[col], p)], n, col)
  {
    hide Mul;
    MulZero(0, p);
  }

  lemma {:induction false} ClearedEliminate(a: Matrix, n: nat, col: nat, r: nat, f: Elem)
    requires IsMatrix(a, n, n) && col < n && r < n && r != col && Cleared(a, n, col)
    ensures IsMatrix(a[r := Eliminated(a[r], f, a[col])], n, n)
    ensures Cleared(a[r := Eliminated(a[r], f, a[col])], n, col)
  {
    hide Mul, Add;
    MulZero(f, 0);
    AddLaws(0, 0, 0);
    AddLaws(1, 0, 0);
  }

  /** The inner loop that multiplies a row in place. */
  method ScaleRow(row: Vec, p: Elem) returns (r: Vec)
    ensures r == Scaled(row, p)
  {
    hide Mul;
    r := row;
    for c := 0 to |row|
      invariant |r| == |row|
      invariant forall d :: 0 <= d < c ==> r[d] == Scaled(row, p)[d]
      invariant forall d :: c <= d < |row| ==> r[d] == row[d]
    {
      r := r[c := Mul(r[c], p)];
    }
  }

  /** The inner loop that XORs a multiple of one row or shard into another. */
  method AddMultiple(out: Vec, f: Elem, shard: Vec) returns (r: Vec)
    requires |out| == |shard|
    ensures r == Eliminated(out, f, shard)
  {
    hide Mul, Add;
    r := out;
    for c := 0 to |out|
      invariant |r| == |out|
      invariant forall d :: 0 <= d < c ==> r[d] == Eliminated(out, f, shard)[d]
      invariant forall d :: c <= d < |out| ==> r[d] == out[d]
    {
      r := r[c := Add(r[c], Mul(f, shard[c]))];
    }
  }

  method FindPivot(a: Matrix, n: nat, col: nat) returns (r: Option<nat>)
    requires IsMatrix(a, n, n) && col < n
    ensures r.Some? ==> col <= r.value < n && a[r.value][col] != 0
    ensures r.Some? ==> forall q :: col <= q < r.value ==> a[q][col] == 0
    ensures r.None? ==> forall q :: col <= q < n ==> a[q][col] == 0
  {
    for q := col to n
      invariant forall p :: col <= p < q ==> a[p][col] == 0
    {
      if a[q][col] != 0 {
        return Some(q);
      }
    }
    return None;
  }

  /** One column of the elimination: make the pivot 1 and clear the rest of its column. */
  method ReduceColumn(left: Matrix, right: Matrix, ghost a: Matrix, n: nat, col: nat, pivot: nat)
    returns (l: Matrix, r: Matrix)
    requires Reducing(left, right, a, n) && col <= pivot < n
    requires Cleared(left, n, col) && left[pivot][col] != 0
    ensures Reducing(l, r, a, n) && Cleared(l, n, col + 1)
  {
    hide Mul, Add, Inv, Tracks, KernelFrom, Scaled, Eliminated;
    ReducingSwap(left, right, a, n, col, pivot);
    l, r := Swapped(left, col, pivot), Swapped(right, col, pivot);
    var p := Inv(l[col][col]);
    PivotBecomesOne(l, n, col);
    ClearedScale(l, n, col, p);
    ReducingScale(l, r, a, n, col, p);
    var leftRow := ScaleRow(l[col], p);
    var rightRow := ScaleRow(r[col], p);
    l, r := l[col := leftRow], r[col := rightRow];
    for q := 0 to n
      invariant Reducing(l, r, a, n) && Cleared(l, n, col) && l[col][col] == 1
      invariant forall i :: 0 <= i < q && i != col ==> l[i][col] == 0
    {
      var factor := l[q][col];
      if q != col && factor != 0 {
        EntryBecomesZero(l[q], l[col], col);
        ClearedEliminate(l, n, col, q, factor);
        ReducingEliminate(l, r, a, n, q, factor, col);
        leftRow := AddMultiple(l[q], factor, l[col]);
        rightRow := AddMultiple(r[q], factor, r[col]);
        l, r := l[q := leftRow], r[q := rightRow];
      }
    }
  }

  lemma {:induction false} PivotBecomesOne(a: Matrix, n: nat, col: nat)
    requires IsMatrix(a, n, n) && col < n && a[col][col] != 0
    ensures Inv(a[col][col]) != 0
    ensures Scaled(a[col], Inv(a[col][col]))[col] == 1
  {
    hide Mul, Inv;
    MulInv(a[col][col]);
  }

  lemma {:induction false} EntryBecomesZero(u: Vec, w: Vec, col: nat)
    requires |u| == |w| && col < |u| && w[col] == 1
    ensures Eliminated(u, u[col], w)[col] == 0
  {
    hide Mul, Add;
    MulOne(u[col]);
    AddLaws(u[col], u[col], 0);
  }

  /**
   Gauss-Jordan inversion: it fails exactly on singular matrices, and what it returns is an inverse
   on both sides.
   */
  method Invert(a: Matrix) returns (r: Option<Matrix>)
    requires IsMatrix(a, |a|, |a|)
    ensures r.None? <==> Singular(a)
    ensures r.Some? ==> IsInverse(r.value, a)
  {
    hide Tracks, KernelFrom;
    var n := |a|;
    var left, right := a, Identity(n);
    ReducingStart(a, n);
    for col := 0 to n
      invariant Reducing(left, right, a, n) && Cleared(left, n, col)
    {
      var pivot := FindPivot(left, n, col);
      if pivot.None? {
        NoPivot(left, right, a, n, col);
        return None;
      }
      left, right := ReduceColumn(left, right, a, n, col, pivot.value);
    }
    forall v: Vec {:trigger Apply(a, v)} {:trigger Apply(right, v)} | |v| == n
      ensures Apply(right, Apply(a, v)) == v && Apply(a, Apply(right, v)) == v
    {
      ReducedInverts(left, right, a, n, v);
    }
    InvertibleNotSingular(right, a);
    return Some(right);
  }

  ghost predicate IsInverse(b: Matrix, a: Matrix)
    requires IsMatrix(a, |a|, |a|)
  {
    && IsMatrix(b, |a|, |a|)
    && forall v: Vec {:trigger Apply(a, v)} {:trigger Apply(b, v)} :: |v| == |a| ==>
         Apply(b, Apply(a, v)) == v && Apply(a, Apply(b, v)) == v
  }

  lemma {:induction false} InvertibleNotSingular(b: Matrix, a: Matrix)
    requires IsMatrix(a, |a|, |a|) && IsInverse(b, a)
    ensures !Singular(a)
  {
    hide Dot;
    forall v: Vec {:trigger Apply(a, v)} | |v| == |a| && IsZero(Apply(a, v)) ensures IsZero(v) {
      var z := Apply(a, v);
      forall r | 0 <= r < |a| ensures Apply(b, z)[r] == 0 {
        DotZero(b[r], z, |a|);
      }
    }
  }

  // ----- Encoding -----

  ghost predicate Even(shards: seq<Vec>, len: nat) {
    forall j :: 0 <= j < |shards| ==> |shards[j]| == len
  }

  /** The bytes of all shards at one position. */
  ghost function Column(shards: seq<Vec>, b: nat): (v: Vec)
    requires forall j :: 0 <= j < |shards| ==> b < |shards[j]|
    ensures |v| == |shards|
  {
    seq(|shards|, j requires 0 <= j < |shards| => shards[j][b])
  }

  /** The row of the encoding matrix that produces code shard `idx`. */
  function CodeRow(rs: Rs, idx: nat): (row: Vec)
    requires idx < rs.k + |rs.cauchy|
  {
    if idx < rs.k then Unit(rs.k, idx) else rs.cauchy[idx - rs.k]
  }

  /** Code shard `idx` of `data`, each byte a linear form in the data bytes at its position. */
  ghost function CodeShard(rs: Rs, data: seq<Vec>, len: nat, idx: nat): (s: Vec)
    requires IsCodec(rs) && |data| == rs.k && Even(data, len) && idx < rs.k + rs.m
    ensures |s| == len
  {
    seq(len, b requires 0 <= b < len => Dot(CodeRow(rs, idx), Column(data, b), rs.k))
  }

  lemma {:induction false} DataShardIsData(rs: Rs, data: seq<Vec>, len: nat, idx: nat)
    requires IsCodec(rs) && |data| == rs.k && Even(data, len) && idx < rs.k
    ensures CodeShard(rs, data, len, idx) == data[idx]
  {
    hide Dot;
    forall b | 0 <= b < len ensures CodeShard(rs, data, len, idx)[b] == data[idx][b] {
      DotUnit(Unit(rs.k, idx), idx, Column(data, b), rs.k);
    }
  }

  /** The byte-wise combination of shards that both encoding and recovery accumulate. */
  method Combine(coeffs: Vec, shards: seq<Vec>, len: nat) returns (out: Vec)
    requires |coeffs| == |shards| && Even(shards, len)
    ensures |out| == len
    ensures forall b :: 0 <= b < len ==> out[b] == Dot(coeffs, Column(shards, b), |shards|)
  {
    hide Mul, Add;
    out := seq(len, _ => 0);
    for j := 0 to |shards|
      invariant |out| == len
      invariant forall b :: 0 <= b < len ==> out[b] == Dot(coeffs, Column(shards, b), j)
    {
      var c := coeffs[j];
      forall b | 0 <= b < len ensures c == 0 ==> Dot(coeffs, Column(shards, b), j + 1) == out[b] {
        MulZero(c, shards[j][b]);
        AddLaws(out[b], 0, 0);
      }
      if c != 0 {
        out := AddMultiple(out, c, shards[j]);
      }
    }
  }

  method Encode(rs: Rs, data: seq<Vec>) returns (r: Result<seq<Vec>, ErasureError>)
    requires IsCodec(rs)
    ensures |data| != rs.k ==> r == Err(WrongShardCount)
    ensures |data| == rs.k && !Even(data, |data[0]|) ==> r == Err(RaggedShards)
    ensures |data| == rs.k && Even(data, |data[0]|) ==>
      r.Ok? && |r.value| == rs.m &&
      forall i :: 0 <= i < rs.m ==> r.value[i] == CodeShard(rs, data, |data[0]|, rs.k + i)
  {
    hide Dot, CauchyRow;
    if |data| != rs.k {
      return Err(WrongShardCount);
    }
    var len := |data[0]|;
    if exists j :: 0 <= j < |data| && |data[j]| != len {
      return Err(RaggedShards);
    }
    var parity: seq<Vec> := [];
    for i := 0 to rs.m
      invariant |parity| == i
      invariant forall a :: 0 <= a < i ==> parity[a] == CodeShard(rs, data, len, rs.k + a)
    {
      var row := Combine(rs.cauchy[i], data, len);
      assert row == CodeShard(rs, data, len, rs.k + i);
      parity := parity + [row];
    }
    return Ok(parity);
  }

  // ----- Any k code shards determine the data -----

  ghost function DataIndices(idxs: seq<nat>, k: nat): (d: seq<nat>)
    ensures forall x :: x in d ==> x in idxs && x < k
  {
    if idxs == [] then [] else
      var rest := DataIndices(idxs[..|idxs| - 1], k);
      if idxs[|idxs| - 1] < k then rest + [idxs[|idxs| - 1]] else rest
  }

  ghost function ParityIndices(idxs: seq<nat>, k: nat): (d: seq<nat>)
    ensures forall x :: x in d ==> x + k in idxs
  {
    if idxs == [] then [] else
      var rest := ParityIndices(idxs[..|idxs| - 1], k);
      if idxs[|idxs| - 1] < k then rest else rest + [idxs[|idxs| - 1] - k]
  }

  lemma {:induction false} SplitIndices(idxs: seq<nat>, k: nat)
    requires Distinct(idxs)
    ensures Distinct(DataIndices(idxs, k)) && Distinct(ParityIndices(idxs, k))
    ensures |DataIndices(idxs, k)| + |ParityIndices(idxs, k)| == |idxs|
  {
    if idxs != [] {
      var init, last := idxs[..|idxs| - 1], idxs[|idxs| - 1];
      SplitIndices(init, k);
      assert last !in init;
      assert last !in DataIndices(init, k);
      assert last >= k ==> last - k !in ParityIndices(init, k);
    }
  }

  ghost function ChosenMatrix(rs: Rs, idxs: seq<nat>): (a: Matrix)
    requires IsCodec(rs) && forall r :: 0 <= r < |idxs| ==> idxs[r] < rs.k + rs.m
    ensures IsMatrix(a, |idxs|, rs.k)
  {
    seq(|idxs|, r requires 0 <= r < |idxs| => CodeRow(rs, idxs[r]))
  }

  /** The code is maximum distance separable: the rows of any k distinct code shards are independent. */
  lemma {:induction false} ChosenNonSingular(rs: Rs, idxs: seq<nat>)
    requires IsCodec(rs) && |idxs| == rs.k && Distinct(idxs)
    requires forall r :: 0 <= r < |idxs| ==> idxs[r] < rs.k + rs.m
    ensures !Singular(ChosenMatrix(rs, idxs))
  {
    hide Dot, CauchyRow;
    var a, k := ChosenMatrix(rs, idxs), rs.k;
    var zeros, xs := DataIndices(idxs, k), ParityIndices(idxs, k);
    SplitIndices(idxs, k);
    forall v: Vec {:trigger Apply(a, v)} | |v| == k && IsZero(Apply(a, v)) ensures IsZero(v) {
      forall p | 0 <= p < |zeros| ensures zeros[p] < k && v[zeros[p]] == 0 {
        assert zeros[p] in zeros;
        var r: nat :| r < |idxs| && idxs[r] == zeros[p];
        assert Apply(a, v)[r] == 0;
        DotUnit(Unit(k, zeros[p]), zeros[p], v, k);
      }
      SupportBound(v, zeros);
      forall p | 0 <= p < |xs| ensures xs[p] < rs.m && Dot(CauchyRow(k, rs.m, xs[p]), v, k) == 0 {
        assert xs[p] in xs;
        var r: nat :| r < |idxs| && idxs[r] == xs[p] + k;
        assert Apply(a, v)[r] == 0;
      }
      CauchyKernel(rs.m, xs, v);
    }
  }

  // ----- Recovery -----

  type Survivor = (nat, Vec)

  /** What is wrong with survivor i, given the ones before it; the index is judged first. */
  ghost function Fault(rs: Rs, chosen: seq<Survivor>, i: nat): Option<ErasureError>
    requires i < |chosen|
  {
    if chosen[i].0 >= rs.k + rs.m || (exists j :: 0 <= j < i && chosen[j].0 == chosen[i].0)
    then Some(BadShardIndex)
    else if |chosen[i].1| != |chosen[0].1| then Some(RaggedShards)
    else None
  }

  ghost function Indices(chosen: seq<Survivor>): (xs: seq<nat>)
    ensures |xs| == |chosen|
  {
    seq(|chosen|, i requires 0 <= i < |chosen| => chosen[i].0)
  }

  ghost function Shards(chosen: seq<Survivor>): (xs: seq<Vec>)
    ensures |xs| == |chosen|
  {
    seq(|chosen|, i requires 0 <= i < |chosen| => chosen[i].1)
  }

  /** The survivors, as far as the codec looks at them, are the code shards of `data`. */
  ghost predicate Explains(rs: Rs, data: seq<Vec>, len: nat, chosen: seq<Survivor>)
    requires IsCodec(rs)
    requires forall i :: 0 <= i < |chosen| ==> chosen[i].0 < rs.k + rs.m
  {
    && |data| == rs.k && Even(data, len)
    && forall i :: 0 <= i < |chosen| ==> chosen[i].1 == CodeShard(rs, data, len, chosen[i].0)
  }

  /** The validation loop over the first k survivors. */
  method Validate(rs: Rs, chosen: seq<Survivor>) returns (r: Option<ErasureError>)
    requires IsCodec(rs) && |chosen| == rs.k
    ensures r.None? ==> forall i :: 0 <= i < |chosen| ==> Fault(rs, chosen, i).None?
    ensures r.Some? ==>
      exists i :: 0 <= i < |chosen| && Fault(rs, chosen, i) == r &&
        forall j :: 0 <= j < i ==> Fault(rs, chosen, j).None?
  {
    var len := |chosen[0].1|;
    var seen := seq(rs.k + rs.m, _ => false);
    for i := 0 to |chosen|
      invariant |seen| == rs.k + rs.m
      invariant forall j :: 0 <= j < i ==> Fault(rs, chosen, j).None?
      invariant forall x :: 0 <= x < |seen| ==> (seen[x] <==> exists j :: 0 <= j < i && chosen[j].0 == x)
    {
      var idx := chosen[i].0;
      if idx >= rs.k + rs.m || seen[idx] {
        assert Fault(rs, chosen, i) == Some(BadShardIndex);
        return Some(BadShardIndex);
      }
      if |chosen[i].1| != len {
        assert Fault(rs, chosen, i) == Some(RaggedShards);
        return Some(RaggedShards);
      }
      seen := seen[idx := true];
    }
    return None;
  }

  lemma {:induction false} ValidIndices(rs: Rs, chosen: seq<Survivor>)
    requires IsCodec(rs) && |chosen| == rs.k
    requires forall i :: 0 <= i < |chosen| ==> Fault(rs, chosen, i).None?
    ensures Distinct(Indices(chosen)) && Even(Shards(chosen), |chosen[0].1|)
    ensures forall i :: 0 <= i < |chosen| ==> chosen[i].0 < rs.k + rs.m && Indices(chosen)[i] < rs.k + rs.m
  {
    forall a, b | 0 <= a < b < |chosen| ensures Indices(chosen)[a] != Indices(chosen)[b] {
      assert Fault(rs, chosen, b).None?;
    }
    forall i | 0 <= i < |chosen|
      ensures chosen[i].0 < rs.k + rs.m && |Shards(chosen)[i]| == |chosen[0].1|
    {
      assert Fault(rs, chosen, i).None?;
    }
  }

  /** The chosen rows send each column of the data to the same column of the survivors, and back. */
  lemma {:induction false} ColumnsCorrespond(rs: Rs, data: seq<Vec>, len: nat, chosen: seq<Survivor>, b: nat)
    requires IsCodec(rs) && |chosen| == rs.k && |data| == rs.k && Even(data, len) && b < len
    requires forall i :: 0 <= i < |chosen| ==> chosen[i].0 < rs.k + rs.m && Indices(chosen)[i] < rs.k + rs.m
    requires Even(Shards(chosen), len)
    ensures forall i :: 0 <= i < rs.k ==>
      Apply(ChosenMatrix(rs, Indices(chosen)), Column(data, b))[i] == CodeShard(rs, data, len, chosen[i].0)[b]
  {
    hide Dot;
  }

  /**
   Recovery succeeds whenever the first k survivors are well-formed, and the data it returns is the
   only data whose code shards they are.
   */
  method Reconstruct(rs: Rs, survivors: seq<Survivor>) returns (r: Result<seq<Vec>, ErasureError>)
    requires IsCodec(rs)
    ensures |survivors| < rs.k ==> r == Err(NotEnoughShards)
    ensures |survivors| >= rs.k && r.Err? ==>
      var chosen := survivors[..rs.k];
      exists i :: 0 <= i < rs.k && Fault(rs, chosen, i) == Some(r.error) &&
        forall j :: 0 <= j < i ==> Fault(rs, chosen, j).None?
    ensures r.Ok? ==>
      var chosen := survivors[..rs.k];
      && (forall i :: 0 <= i < rs.k ==> Fault(rs, chosen, i).None? && chosen[i].0 < rs.k + rs.m)
      && Explains(rs, r.value, |chosen[0].1|, chosen)
      && forall data: seq<Vec> {:trigger Explains(rs, data, |chosen[0].1|, chosen)} ::
           Explains(rs, data, |chosen[0].1|, chosen) ==> data == r.value
  {
    if |survivors| < rs.k {
      return Err(NotEnoughShards);
    }
    var chosen := survivors[..rs.k];
    var fault := Validate(rs, chosen);
    if fault.Some? {
      return Err(fault.value);
    }
    ValidIndices(rs, chosen);
    var data := Recover(rs, chosen);
    return Ok(data);
  }

  method Recover(rs: Rs, chosen: seq<Survivor>) returns (data: seq<Vec>)
    requires IsCodec(rs) && |chosen| == rs.k
    requires Distinct(Indices(chosen)) && Even(Shards(chosen), |chosen[0].1|)
    requires forall i :: 0 <= i < |chosen| ==> chosen[i].0 < rs.k + rs.m && Indices(chosen)[i] < rs.k + rs.m
    ensures Explains(rs, data, |chosen[0].1|, chosen)
    ensures forall other: seq<Vec> {:trigger Explains(rs, other, |chosen[0].1|, chosen)} ::
      Explains(rs, other, |chosen[0].1|, chosen) ==> other == data
  {
    hide Dot, CauchyRow, Unit;
    var k, len := rs.k, |chosen[0].1|;
    var matrix: Matrix := seq(k, r requires 0 <= r < k => CodeRow(rs, chosen[r].0));
    assert matrix == ChosenMatrix(rs, Indices(chosen));
    ChosenNonSingular(rs, Indices(chosen));
    var inv := Invert(matrix);
    var shards := seq(k, i requires 0 <= i < k => chosen[i].1);
    assert shards == Shards(chosen);
    data := [];
    for j := 0 to k
      invariant |data| == j && Even(data, len)
      invariant forall a, b :: 0 <= a < j && 0 <= b < len ==> data[a][b] == Apply(inv.value, Column(shards, b))[a]
    {
      var row := Combine(inv.value[j], shards, len);
      data := data + [row];
    }
    RecoveredExplains(rs, chosen, inv.value, data, len);
    forall other: seq<Vec> {:trigger Explains(rs, other, len, chosen)} | Explains(rs, other, len, chosen)
      ensures other == data
    {
      ExplanationUnique(rs, chosen, inv.value, data, other, len);
    }
  }

  lemma {:induction false} RecoveredExplains(rs: Rs, chosen: seq<Survivor>, inv: Matrix, data: seq<Vec>, len: nat)
    requires IsCodec(rs) && |chosen| == rs.k && |data| == rs.k && Even(data, len)
    requires Even(Shards(chosen), len)
    requires forall i :: 0 <= i < |chosen| ==> chosen[i].0 < rs.k + rs.m && Indices(chosen)[i] < rs.k + rs.m
    requires IsInverse(inv, ChosenMatrix(rs, Indices(chosen)))
    requires forall a, b :: 0 <= a < rs.k && 0 <= b < len ==> data[a][b] == Apply(inv, Column(Shards(chosen), b))[a]
    ensures Explains(rs, data, len, chosen)
  {
    hide Dot, ChosenMatrix, Apply;
    assert forall i :: 0 <= i < rs.k ==> chosen[i].1 == Shards(chosen)[i];
    forall i, b | 0 <= i < rs.k && 0 <= b < len ensures CodeShard(rs, data, len, chosen[i].0)[b] == chosen[i].1[b] {
      var c := Column(Shards(chosen), b);
      assert Column(data, b) == Apply(inv, c);
      ColumnsCorrespond(rs, data, len, chosen, b);
      assert Apply(ChosenMatrix(rs, Indices(chosen)), Apply(inv, c)) == c;
    }
    forall i | 0 <= i < |chosen| ensures chosen[i].1 == CodeShard(rs, data, len, chosen[i].0) {
    }
  }

  lemma {:induction false} ExplanationUnique(rs: Rs, chosen: seq<Survivor>, inv: Matrix, data: seq<Vec>,
                                             other: seq<Vec>, len: nat)
    requires IsCodec(rs) && |chosen| == rs.k && |data| == rs.k && Even(data, len)
    requires Even(Shards(chosen), len)
    requires forall i :: 0 <= i < |chosen| ==> chosen[i].0 < rs.k + rs.m && Indices(chosen)[i] < rs.k + rs.m
    requires IsInverse(inv, ChosenMatrix(rs, Indices(chosen)))
    requires forall a, b :: 0 <= a < rs.k && 0 <= b < len ==> data[a][b] == Apply(inv, Column(Shards(chosen), b))[a]
    requires Explains(rs, other, len, chosen)
    ensures other == data
  {
    hide Dot, ChosenMatrix, Apply;
    forall a, b | 0 <= a < rs.k && 0 <= b < len ensures other[a][b] == data[a][b] {
      var c := Column(other, b);
      ColumnsCorrespond(rs, other, len, chosen, b);
      assert Apply(ChosenMatrix(rs, Indices(chosen)), c) == Column(Shards(chosen), b);
      assert c[a] == other[a][b];
    }
    forall a | 0 <= a < rs.k ensures other[a] == data[a] {
    }
  }

  /**
   The whole promise: encode k equal-length shards, keep any k or more of the k + m code shards in any
   order, and recovery returns the data.
   */
  method RoundTrip(k: nat, m: nat, data: seq<Vec>, kept: seq<nat>) returns (back: seq<Vec>)
    requires k >= 1 && m >= 1 && k + m <= 255
    requires |data| == k && Even(data, |data[0]|)
    requires |kept| >= k && Distinct(kept) && forall i :: 0 <= i < |kept| ==> kept[i] < k + m
    ensures back == data
  {
    hide Dot, CauchyRow;
    var made := New(k, m);
    var rs := made.value;
    var encoded := Encode(rs, data);
    var parity, len := encoded.value, |data[0]|;
    var survivors: seq<Survivor> := seq(|kept|, i requires 0 <= i < |kept| =>
      (kept[i], if kept[i] < k then data[kept[i]] else parity[kept[i] - k]));
    forall i | 0 <= i < |kept| ensures survivors[i].1 == CodeShard(rs, data, len, kept[i]) {
      if kept[i] < k {
        DataShardIsData(rs, data, len, kept[i]);
      }
    }
    var recovered := Reconstruct(rs, survivors);
    assert Explains(rs, data, len, survivors[..k]);
    back := recovered.value;
  }
}
