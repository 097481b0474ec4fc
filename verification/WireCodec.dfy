/**
 The Kafka wire primitives: big-endian integers, LEB128 variable-length integers and their zig-zag
 signed forms, read by a bounds-checked cursor and written to a growing buffer.
 */
module WireCodec {
  import opened Wrappers
  import opened Bytes
  import Bits

  /** Why a read failed. Corrupt is a record batch whose checksum disagrees; the others are malformed bytes. */
  datatype Fault = Eof | Invalid | Corrupt

  /** A read: the value and the position after it, or why it failed. */
  datatype Parsed<+T> = Got(value: T, next: nat) | Failed(error: Fault) {
    predicate IsFailure() {
      Failed?
    }

    function PropagateFailure<U>(): Parsed<U>
      requires Failed?
    {
      Failed(error)
    }

    function Extract(): (T, nat)
      requires Got?
    {
      (value, next)
    }
  }

  // ----- Big-endian integers -----

  /** n modulo 256^w, most significant byte first: the two's complement of a negative n. */
  function Be(n: int, w: nat): (b: bytes)
    ensures |b| == w
    decreases w
  {
    if w == 0 then [] else Be(n / 256, w - 1) + [n % 256]
  }

  /** Big-endian: byte i is the digit of 256^(w - 1 - i). */
  lemma {:induction false} BeDigits(n: int, w: nat, i: nat)
    requires i < w
    ensures Be(n, w)[i] == (n / Pow256(w - 1 - i)) % 256
    decreases w
  {
    if i < w - 1 {
      BeDigits(n / 256, w - 1, i);
      DivDiv(n, 256, Pow256(w - 2 - i));
    }
  }

  function FromBe(b: bytes): nat {
    if b == [] then 0 else 256 * FromBe(b[..|b| - 1]) + b[|b| - 1]
  }

  function Signed(u: nat, w: nat): int {
    if 2 * u >= Pow256(w) then u - Pow256(w) else u
  }

  ghost predicate Fits(n: int, w: nat) {
    0 <= 2 * n + Pow256(w) < 2 * Pow256(w)
  }

  lemma {:induction false} FromBeBe(n: int, w: nat)
    ensures FromBe(Be(n, w)) == n % Pow256(w)
    decreases w
  {
    if w > 0 {
      FromBeBe(n / 256, w - 1);
      assert Be(n, w)[..w - 1] == Be(n / 256, w - 1);
      DivMod(n, Pow256(w - 1));
    }
  }

  lemma {:induction false} DivMod(n: int, p: nat)
    requires p >= 1
    ensures n % (256 * p) == 256 * ((n / 256) % p) + n % 256
  {
    var q, r := n / 256, n % 256;
    var a, b := q / p, q % p;
    assert q == p * a + b;
    assert n == (256 * p) * a + (256 * b + r) by {
      assert 256 * (p * a) == (256 * p) * a;
    }
    assert 0 <= 256 * b + r < 256 * p;
    ModUnique(n, 256 * p, a, 256 * b + r);
  }

  lemma {:induction false} ModUnique(n: int, d: int, q: int, r: int)
    requires d > 0 && 0 <= r < d && n == d * q + r
    ensures n % d == r
  {
    var p, t := n / d, n % d;
    assert d * (q - p) == t - r by {
      assert d * (q - p) == d * q - d * p;
    }
    NoMultipleBetween(d, q - p);
  }

  lemma {:induction false} SignedBe(n: int, w: nat)
    requires Fits(n, w)
    ensures Signed(FromBe(Be(n, w)), w) == n
  {
    hide Be, FromBe, Pow256;
    FromBeBe(n, w);
    ModUnique(n, Pow256(w), if n < 0 then -1 else 0, if n < 0 then n + Pow256(w) else n);
  }

  // ----- Variable-length integers -----

  /** LEB128: seven bits to a byte, low group first, the top bit marking continuation. */
  function Leb(v: nat): (b: bytes)
    ensures |b| >= 1
  {
    if v < 128 then [v] else [v % 128 + 128] + Leb(v / 128)
  }

  function Pow128(i: nat): (p: nat)
    ensures p >= 1
  {
    if i == 0 then 1 else 128 * Pow128(i - 1)
  }

  /** Byte i is the digit of 128^i, marked in every byte but the last, which is 0 only for 0. */
  lemma {:induction false} LebDigits(v: nat, i: nat)
    requires i < |Leb(v)|
    ensures Leb(v)[i] == (v / Pow128(i)) % 128 + (if i == |Leb(v)| - 1 then 0 else 128)
    ensures i == |Leb(v)| - 1 && v > 0 ==> 1 <= Leb(v)[i]
  {
    if i > 0 {
      LebDigits(v / 128, i - 1);
      DivDiv(v, 128, Pow128(i - 1));
    } else if v >= 128 {
      assert |Leb(v)| > 1;
    }
  }

  const U64: nat := 0x1_0000_0000_0000_0000
  const U32: nat := 0x1_0000_0000

  /** Seven bits shifted into place in a 64-bit word; bits shifted past the top are lost. */
  function Shifted(low: nat, i: nat): nat {
    (low * Pow128(i)) % U64
  }

  /** Read groups from the i-th on; the groups occupy disjoint bits, so OR-ing them in is adding. */
  function LebFrom(buf: bytes, pos: nat, i: nat, max: nat, acc: nat): (r: Parsed<nat>)
    requires i <= max
    ensures r.Got? ==> pos < r.next <= |buf|
    decreases max - i
  {
    if i == max then Failed(Invalid)
    else if pos >= |buf| then Failed(Eof)
    else
      var next := acc + Shifted(buf[pos] % 128, i);
      if buf[pos] < 128 then Got(next, pos + 1) else LebFrom(buf, pos + 1, i + 1, max, next)
  }

  function UvarintAt(buf: bytes, pos: nat): (r: Parsed<nat>)
    ensures r.Got? ==> pos < r.next <= |buf|
  {
    var (v, next) :- LebFrom(buf, pos, 0, 5, 0);
    if v < U32 then Got(v, next) else Failed(Invalid)
  }

  /** Non-negative numbers to even, negative to odd. */
  function ZigZag(n: int): (v: nat) {
    if n >= 0 then 2 * n else -2 * n - 1
  }

  function UnZigZag(v: nat): int {
    if v % 2 == 0 then v / 2 else -(v / 2) - 1
  }

  function VarintAt(buf: bytes, pos: nat): (r: Parsed<int>)
    ensures r.Got? ==> pos < r.next <= |buf|
  {
    var (v, next) :- UvarintAt(buf, pos);
    Got(UnZigZag(v), next)
  }

  function VarlongAt(buf: bytes, pos: nat): (r: Parsed<int>)
    ensures r.Got? ==> pos < r.next <= |buf|
  {
    var (v, next) :- LebFrom(buf, pos, 0, 10, 0);
    Got(UnZigZag(v), next)
  }

  function Varint(n: int): bytes {
    Leb(ZigZag(n))
  }

  /** (n << 1) ^ (n >> (8w - 1)) on w-byte words: the second operand is all zeros or all ones. */
  function ZigZagWord(n: int, w: nat): nat {
    Bits.Xor(2 * n % Pow256(w), if n < 0 then Pow256(w) - 1 else 0)
  }

  /** (v >> 1) ^ -(v & 1) on w-byte words, read as a signed number. */
  function UnZigZagWord(v: nat, w: nat): int {
    Signed(Bits.Xor(v / 2, if v % 2 == 1 then Pow256(w) - 1 else 0), w)
  }

  /** 256^w is 2^(8w), for the two widths in use. */
  lemma {:induction false} Wide(w: nat)
    requires w == 4 || w == 8
    ensures Pow256(w) == Bits.Pow2(8 * w)
  {
    Widths();
    Bits.Powers();
  }

  /** The shift-and-xor code computes the zig-zag numbering of every 32-bit and 64-bit number. */
  lemma {:induction false} ZigZagIsWord(n: int, w: nat)
    requires (w == 4 || w == 8) && Fits(n, w)
    ensures ZigZagWord(n, w) == ZigZag(n)
  {
    hide Pow256, Bits.Xor, Bits.Pow2;
    var p := Pow256(w);
    Wide(w);
    if n < 0 {
      ModUnique(2 * n, p, -1, 2 * n + p);
      Bits.XorOnes(2 * n + p, 8 * w);
    } else {
      ModUnique(2 * n, p, 0, 2 * n);
      Bits.Zeros(2 * n);
    }
  }

  lemma {:induction false} UnZigZagIsWord(v: nat, w: nat)
    requires (w == 4 || w == 8) && v < Pow256(w)
    ensures UnZigZagWord(v, w) == UnZigZag(v)
  {
    hide Pow256, Bits.Xor, Bits.Pow2;
    Wide(w);
    if v % 2 == 1 {
      Bits.XorOnes(v / 2, 8 * w);
      EvenSize(w);
    } else {
      Bits.Zeros(v / 2);
    }
  }

  lemma {:induction false} EvenSize(w: nat)
    requires w > 0
    ensures Pow256(w) % 2 == 0
  {
  }

  lemma {:induction false} ZigZagRoundTrip(n: int)
    ensures UnZigZag(ZigZag(n)) == n
    ensures Fits(n, 4) ==> ZigZag(n) < U32
    ensures Fits(n, 8) ==> ZigZag(n) < U64
  {
    Widths();
  }

  /** The two shift-and-xor codes undo each other on every 32-bit and 64-bit number. */
  lemma {:induction false} ZigZagWordRoundTrip(n: int, w: nat)
    requires (w == 4 || w == 8) && Fits(n, w)
    ensures ZigZagWord(n, w) < Pow256(w) && UnZigZagWord(ZigZagWord(n, w), w) == n
  {
    hide ZigZagWord, UnZigZagWord, Pow256;
    Widths();
    ZigZagIsWord(n, w);
    ZigZagRoundTrip(n);
    UnZigZagIsWord(ZigZag(n), w);
  }

  /** OR-ing the next group in is adding it: its bits lie above all those before. Nothing passes 64 bits. */
  lemma {:induction false} GroupsDisjoint(acc: nat, low: nat, i: nat)
    requires i < 10 && acc < Pow128(i) && low < 128
    ensures Bits.Or(acc, Shifted(low, i)) == acc + Shifted(low, i) < U64
    ensures i < 9 ==> acc + Shifted(low, i) < Pow128(i + 1)
  {
    hide Bits.Or, Bits.Pow2, Pow128;
    var p := Pow128(i);
    SevenBits(i);
    var q := if i < 9 then low else low % 2;
    assert Shifted(low, i) == q * p by { ShiftedGroup(low, i); }
    Bits.OrDisjoint(acc, q, 7 * i);
    SumBound(acc, p, q, if i < 9 then 128 else 2);
    GroupBound(i);
  }

  lemma {:induction false} SevenBits(i: nat)
    ensures Pow128(i) == Bits.Pow2(7 * i)
  {
    if i > 0 {
      SevenBits(i - 1);
      var n := 7 * (i - 1);
      assert Bits.Pow2(n + 2) == 4 * Bits.Pow2(n);
      assert Bits.Pow2(n + 4) == 16 * Bits.Pow2(n);
      assert Bits.Pow2(n + 6) == 64 * Bits.Pow2(n);
    }
  }

  lemma {:induction false} ShiftedGroup(low: nat, i: nat)
    requires i < 10 && low < 128
    ensures Shifted(low, i) == (if i < 9 then low else low % 2) * Pow128(i)
  {
    hide Pow128;
    GroupBound(i);
    if i < 9 {
      LowGroup(low, Pow128(i), U64);
    } else {
      TopGroup(low, Pow128(i), U64);
    }
  }

  lemma {:induction false} LowGroup(low: nat, p: nat, d: nat)
    requires 128 * p <= d && low < 128 && p > 0
    ensures (low * p) % d == low * p
  {
    SumBound(0, p, low, 128);
    ModUnique(low * p, d, 0, low * p);
  }

  /** Shifted to the topmost bit, a group keeps its lowest bit only. */
  lemma {:induction false} TopGroup(low: nat, p: nat, d: nat)
    requires d == 2 * p && p > 0
    ensures (low * p) % d == (low % 2) * p
  {
    var half, bit := low / 2, low % 2;
    Halved(half, bit, p);
    ModUnique(low * p, d, half, bit * p);
  }

  lemma {:induction false} Halved(half: nat, bit: nat, p: nat)
    ensures (2 * half + bit) * p == (2 * p) * half + bit * p
  {
    assert (2 * half) * p == (2 * p) * half;
  }

  lemma {:induction false} SumBound(acc: nat, p: nat, q: nat, n: nat)
    requires (acc < p || (acc == 0 && p > 0)) && q < n
    ensures acc + q * p < n * p
  {
    assert q * p + p == (q + 1) * p <= n * p;
  }

  lemma {:induction false} GroupBound(i: nat)
    requires i < 10
    ensures Pow128(i) > 0
    ensures i < 9 ==> 128 * Pow128(i) == Pow128(i + 1) && 128 * Pow128(i) <= U64
    ensures i == 9 ==> 2 * Pow128(i) == U64
  {
    assert Pow128(2) == 16384;
    assert Pow128(4) == 268435456;
    assert Pow128(6) == 4398046511104;
    assert Pow128(8) == 72057594037927936;
  }

  /** What v stands for as the groups from the i-th on. */
  function Placed(v: nat, i: nat): nat {
    v * Pow128(i)
  }

  lemma {:induction false} LebReads(buf: bytes, pos: nat, v: nat, i: nat, max: nat, acc: nat)
    requires Holds(buf, pos, Leb(v)) && i + |Leb(v)| <= max && Placed(v, i) < U64
    ensures LebFrom(buf, pos, i, max, acc) == Got(acc + Placed(v, i), pos + |Leb(v)|)
    decreases v
  {
    hide Shifted, Placed, Pow128;
    assert buf[pos] == buf[pos..pos + |Leb(v)|][0];
    PlacedSplits(v, i);
    ShiftedSmall(v % 128, i);
    if v >= 128 {
      HoldsSplit(buf, pos, [v % 128 + 128], Leb(v / 128));
      LebReads(buf, pos + 1, v / 128, i + 1, max, acc + Placed(v % 128, i));
    }
  }

  lemma {:induction false} PlacedSplits(v: nat, i: nat)
    ensures Placed(v, i) == Placed(v % 128, i) + Placed(v / 128, i + 1)
    ensures v < 128 ==> Placed(v, i) == Placed(v % 128, i)
  {
    Groups(v, Pow128(i));
    assert Pow128(i + 1) == 128 * Pow128(i);
  }

  lemma {:induction false} Groups(v: nat, p: nat)
    ensures v * p == (v % 128) * p + (v / 128) * (128 * p)
  {
    var q, r := v / 128, v % 128;
    assert v * p == (128 * q + r) * p == (128 * q) * p + r * p;
    assert (128 * q) * p == q * (128 * p);
  }

  lemma {:induction false} ShiftedSmall(low: nat, i: nat)
    requires Placed(low, i) < U64
    ensures Shifted(low, i) == Placed(low, i)
  {
  }

  lemma {:induction false} LebLength(v: nat, n: nat)
    requires n >= 1 && v < Pow128(n)
    ensures |Leb(v)| <= n
    decreases v
  {
    if v >= 128 {
      assert Pow128(1) == 128;
      LebLength(v / 128, n - 1);
    }
  }

  lemma {:induction false} Powers()
    ensures Pow128(0) == 1 && Pow128(5) >= U32 && Pow128(10) >= U64
  {
    assert Pow128(2) == 16384;
    assert Pow128(4) == 268435456;
    assert Pow128(5) == 34359738368;
    assert Pow128(7) == 562949953421312;
    assert Pow128(9) == 9223372036854775808;
  }

  /** Every 32-bit number written as a varint reads back, whatever surrounds it. */
  lemma {:induction false} VarintReads(buf: bytes, pos: nat, n: int)
    requires Fits(n, 4) && Holds(buf, pos, Varint(n))
    ensures VarintAt(buf, pos) == Got(n, pos + |Varint(n)|)
  {
    hide Leb, LebFrom, Pow128, Pow256;
    ZigZagRoundTrip(n);
    Powers();
    LebLength(ZigZag(n), 5);
    assert Placed(ZigZag(n), 0) == ZigZag(n);
    LebReads(buf, pos, ZigZag(n), 0, 5, 0);
  }

  lemma {:induction false} GroupsRunOn(buf: bytes, pos: nat, i: nat, max: nat, acc: nat)
    requires i <= max && pos <= |buf| && forall j | pos <= j < |buf| && j < pos + (max - i) :: buf[j] >= 128
    ensures LebFrom(buf, pos, i, max, acc) == Failed(if |buf| < pos + (max - i) then Eof else Invalid)
    decreases max - i
  {
    hide Shifted;
    if i < max && pos < |buf| {
      GroupsRunOn(buf, pos + 1, i + 1, max, acc + Shifted(buf[pos] % 128, i));
    }
  }

  /** A number with no last byte within five, or ten for a long one, is refused; if the bytes end first, as cut short. */
  lemma {:induction false} OverlongRefused(buf: bytes, pos: nat)
    requires pos <= |buf|
    ensures (forall j | pos <= j < |buf| && j < pos + 5 :: buf[j] >= 128) ==>
              VarintAt(buf, pos) == Failed(if |buf| < pos + 5 then Eof else Invalid)
    ensures (forall j | pos <= j < |buf| && j < pos + 10 :: buf[j] >= 128) ==>
              VarlongAt(buf, pos) == Failed(if |buf| < pos + 10 then Eof else Invalid)
  {
    hide LebFrom;
    if forall j | pos <= j < |buf| && j < pos + 5 :: buf[j] >= 128 {
      GroupsRunOn(buf, pos, 0, 5, 0);
    }
    if forall j | pos <= j < |buf| && j < pos + 10 :: buf[j] >= 128 {
      GroupsRunOn(buf, pos, 0, 10, 0);
    }
  }

  /** Every 64-bit number written as a varlong reads back. */
  lemma {:induction false} VarlongReads(buf: bytes, pos: nat, n: int)
    requires Fits(n, 8) && Holds(buf, pos, Varint(n))
    ensures VarlongAt(buf, pos) == Got(n, pos + |Varint(n)|)
  {
    hide Leb, LebFrom, Pow128, Pow256;
    ZigZagRoundTrip(n);
    Powers();
    LebLength(ZigZag(n), 10);
    assert Placed(ZigZag(n), 0) == ZigZag(n);
    LebReads(buf, pos, ZigZag(n), 0, 10, 0);
  }

  // ----- The cursor -----

  function TakeAt(buf: bytes, pos: nat, n: nat): (r: Parsed<bytes>)
    ensures r.Got? ==> r.next == pos + n <= |buf| && |r.value| == n
  {
    if pos + n <= |buf| then Got(buf[pos..pos + n], pos + n) else Failed(Eof)
  }

  function UintAt(buf: bytes, pos: nat, w: nat): (r: Parsed<nat>)
    ensures r.Got? ==> r.next == pos + w <= |buf|
  {
    var (b, next) :- TakeAt(buf, pos, w);
    Got(FromBe(b), next)
  }

  function IntAt(buf: bytes, pos: nat, w: nat): (r: Parsed<int>)
    ensures r.Got? ==> r.next == pos + w <= |buf|
  {
    var (u, next) :- UintAt(buf, pos, w);
    Got(Signed(u, w), next)
  }

  /** Every w-byte number written big-endian reads back. */
  lemma {:induction false} IntReads(buf: bytes, pos: nat, n: int, w: nat)
    requires Fits(n, w) && Holds(buf, pos, Be(n, w))
    ensures IntAt(buf, pos, w) == Got(n, pos + w)
  {
    SignedBe(n, w);
  }

  lemma {:induction false} UintReads(buf: bytes, pos: nat, n: nat, w: nat)
    requires n < Pow256(w) && Holds(buf, pos, Be(n, w))
    ensures UintAt(buf, pos, w) == Got(n, pos + w)
  {
    hide Be, FromBe, Pow256;
    FromBeBe(n, w);
    ModUnique(n, Pow256(w), 0, n);
  }

  class Reader {
    const buf: bytes
    var pos: nat

    constructor (buf: bytes)
      ensures this.buf == buf && pos == 0
    {
      this.buf := buf;
      pos := 0;
    }

    method Take(n: nat) returns (r: Result<bytes, Fault>)
      modifies this
      ensures Agrees(TakeAt(buf, old(pos), n), r, pos) && (r.Err? ==> pos == old(pos))
    {
      if pos + n > |buf| {
        return Err(Eof);
      }
      var b := buf[pos..pos + n];
      pos := pos + n;
      return Ok(b);
    }

    method Uint(w: nat) returns (r: Result<nat, Fault>)
      modifies this
      ensures Agrees(UintAt(buf, old(pos), w), r, pos) && (r.Err? ==> pos == old(pos))
    {
      var b :- Take(w);
      return Ok(FromBe(b));
    }

    method Int(w: nat) returns (r: Result<int, Fault>)
      modifies this
      ensures Agrees(IntAt(buf, old(pos), w), r, pos) && (r.Err? ==> pos == old(pos))
    {
      var u :- Uint(w);
      return Ok(Signed(u, w));
    }

    /** The continuation loop shared by the variable-length readers. */
    method Groups(max: nat) returns (r: Result<nat, Fault>)
      requires max <= 10
      modifies this
      ensures Agrees(LebFrom(buf, old(pos), 0, max, 0), r, pos) && (r.Ok? ==> r.value < U64)
    {
      hide Shifted, Pow128, Bits.Or;
      var result: nat := 0;
      for i := 0 to max
        invariant LebFrom(buf, pos, i, max, result) == LebFrom(buf, old(pos), 0, max, 0)
        invariant i < 10 ==> result < Pow128(i)
      {
        if pos >= |buf| {
          return Err(Eof);
        }
        var b := buf[pos];
        pos := pos + 1;
        GroupsDisjoint(result, b % 128, i);
        result := Bits.Or(result, Shifted(b % 128, i));
        if b < 128 {
          return Ok(result);
        }
      }
      return Err(Invalid);
    }

    method TakeVarint() returns (r: Result<int, Fault>)
      modifies this
      ensures Agrees(VarintAt(buf, old(pos)), r, pos)
    {
      hide LebFrom, UnZigZagWord;
      var v :- Groups(5);
      if v >= U32 {
        return Err(Invalid);
      }
      Widths();
      UnZigZagIsWord(v, 4);
      return Ok(UnZigZagWord(v, 4));
    }

    method TakeVarlong() returns (r: Result<int, Fault>)
      modifies this
      ensures Agrees(VarlongAt(buf, old(pos)), r, pos)
    {
      hide LebFrom, UnZigZagWord;
      var v :- Groups(10);
      Widths();
      UnZigZagIsWord(v, 8);
      return Ok(UnZigZagWord(v, 8));
    }
  }

  /** A cursor call did what the read says: the same value and position, or the same failure. */
  ghost predicate Agrees<T>(p: Parsed<T>, r: Result<T, Fault>, pos: nat) {
    match p
    case Got(v, next) => r == Ok(v) && pos == next
    case Failed(e) => r == Err(e)
  }

  // ----- The writer -----

  class Writer {
    var buf: bytes

    constructor ()
      ensures buf == []
    {
      buf := [];
    }

    method Raw(b: bytes)
      modifies this
      ensures buf == old(buf) + b
    {
      buf := buf + b;
    }

    method Int(n: int, w: nat)
      modifies this
      ensures buf == old(buf) + Be(n, w)
    {
      buf := buf + Be(n, w);
    }

    /** The group loop: every group but the last carries the continuation bit. */
    method Uvarint(v0: nat)
      modifies this
      ensures buf == old(buf) + Leb(v0)
    {
      var v := v0;
      while v >= 128
        invariant buf + Leb(v) == old(buf) + Leb(v0)
      {
        buf := buf + [v % 128 + 128];
        v := v / 128;
      }
      buf := buf + [v];
    }

    method PutVarint(n: int)
      requires Fits(n, 4)
      modifies this
      ensures buf == old(buf) + Varint(n)
    {
      ZigZagIsWord(n, 4);
      Uvarint(ZigZagWord(n, 4));
    }

    method PutVarlong(n: int)
      requires Fits(n, 8)
      modifies this
      ensures buf == old(buf) + Varint(n)
    {
      ZigZagIsWord(n, 8);
      Uvarint(ZigZagWord(n, 8));
    }
  }
}
