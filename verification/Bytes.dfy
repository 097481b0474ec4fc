/** Bytes and the fixed-width integer encodings the formats use. */
module Bytes {
  type byte = b: int | 0 <= b < 256
  type bytes = seq<byte>

  function Pow256(w: nat): (p: nat)
    ensures p >= 1
  {
    if w == 0 then 1 else 256 * Pow256(w - 1)
  }

  /** The `w` low-order bytes of n, least significant first. */
  function ToLe(n: nat, w: nat): (b: bytes)
    ensures |b| == w
  {
    if w == 0 then [] else [n % 256] + ToLe(n / 256, w - 1)
  }

  function FromLe(b: bytes): nat {
    if b == [] then 0 else b[0] + 256 * FromLe(b[1..])
  }

  lemma {:induction false} LeRoundTrip(n: nat, w: nat)
    requires n < Pow256(w)
    ensures FromLe(ToLe(n, w)) == n
  {
    if w > 0 {
      LeRoundTrip(n / 256, w - 1);
      assert ToLe(n, w)[1..] == ToLe(n / 256, w - 1);
    }
  }

  lemma {:induction false} LeInverse(b: bytes)
    ensures ToLe(FromLe(b), |b|) == b
  {
    if b != [] {
      var rest := FromLe(b[1..]);
      FirstDigit(b[0], rest);
      LeInverse(b[1..]);
      assert ToLe(FromLe(b), |b|) == [b[0]] + ToLe(rest, |b| - 1);
      assert b == [b[0]] + b[1..];
    }
  }

  lemma {:induction false} FirstDigit(digit: nat, rest: nat)
    requires digit < 256
    ensures (digit + 256 * rest) % 256 == digit && (digit + 256 * rest) / 256 == rest
  {
  }

  lemma {:induction false} NoMultipleBetween(d: int, k: int)
    requires d > 0 && -d < d * k < d
    ensures k == 0
  {
  }

  lemma {:induction false} QuotientIs(n: int, d: int, q: int, r: int)
    requires d > 0 && 0 <= r < d && n == d * q + r
    ensures n / d == q
  {
    var p, t := n / d, n % d;
    assert d * (q - p) == t - r by {
      assert d * (q - p) == d * q - d * p;
    }
    NoMultipleBetween(d, q - p);
  }

  lemma {:induction false} Regrouped(c: int, p: int, s: int, t: int, r: int)
    ensures c * (p * s + t) + r == (c * p) * s + (c * t + r)
  {
    assert c * (p * s) == (c * p) * s;
  }

  lemma {:induction false} Within(c: int, p: int, t: int, r: int)
    requires 0 <= t < p && 0 <= r < c
    ensures 0 <= c * t + r < c * p
  {
    assert c * (t + 1) <= c * p;
    assert c * (t + 1) == c * t + c;
  }

  /** Dividing twice is dividing by the product, rounding down. */
  lemma {:induction false} DivDiv(n: int, c: nat, p: nat)
    requires c >= 1 && p >= 1
    ensures c * p >= 1 && (n / c) / p == n / (c * p)
  {
    var q, r := n / c, n % c;
    var s, t := q / p, q % p;
    Regrouped(c, p, s, t, r);
    Within(c, p, t, r);
    QuotientIs(n, c * p, s, c * t + r);
  }

  /** Little-endian: byte i is the digit of 256^i. */
  lemma {:induction false} LeDigits(n: nat, w: nat, i: nat)
    requires i < w
    ensures ToLe(n, w)[i] == (n / Pow256(i)) % 256
  {
    if i > 0 {
      LeDigits(n / 256, w - 1, i - 1);
      DivDiv(n, 256, Pow256(i - 1));
    }
  }

  lemma {:induction false} Widths()
    ensures Pow256(4) == 0x1_0000_0000
    ensures Pow256(8) == 0x1_0000_0000_0000_0000
  {
    assert Pow256(2) == 0x1_0000;
    assert Pow256(4) == 0x1_0000_0000;
    assert Pow256(6) == 0x1_0000_0000_0000;
  }

  /** `b` stands in `buf` at `pos`. */
  ghost predicate Holds(buf: bytes, pos: nat, b: bytes) {
    pos + |b| <= |buf| && buf[pos..pos + |b|] == b
  }

  lemma {:induction false} HoldsSplit(buf: bytes, pos: nat, a: bytes, b: bytes)
    requires Holds(buf, pos, a + b)
    ensures Holds(buf, pos, a) && Holds(buf, pos + |a|, b)
  {
    var all := buf[pos..pos + |a + b|];
    assert all[..|a|] == a && all[|a|..] == b;
  }
}
