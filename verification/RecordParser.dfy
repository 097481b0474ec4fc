/** The parser of a Produce request's records: v2 batches and legacy messages, to the end of the blob. */
module RecordParser {
  import opened Wrappers
  import opened Bytes
  import opened WireCodec
  import opened RecordFormat

  datatype EosCoord = EosCoord(producerId: int, producerEpoch: int, baseSequence: int, count: int, transactional: bool)

  datatype ParsedRecords = ParsedRecords(values: seq<bytes>, eos: Option<EosCoord>)

  /** One entry of the blob: the values it adds and, for a v2 batch, the producer coordinate it carries. */
  datatype Item = Item(values: seq<bytes>, eos: Option<EosCoord>)

  function VarBytesAt(buf: bytes, pos: nat): (r: Parsed<Option<bytes>>)
    ensures r.Got? ==> pos < r.next <= |buf|
  {
    var (len, p) :- VarintAt(buf, pos);
    if len < 0 then Got(None, p)
    else
      var (b, q) :- TakeAt(buf, p, len);
      Got(Some(b), q)
  }

  function HeadersAt(buf: bytes, pos: nat, n: nat): (r: Parsed<()>)
    ensures r.Got? ==> pos <= r.next
    ensures r.Got? && pos <= |buf| ==> r.next <= |buf|
    decreases n
  {
    if n == 0 then Got((), pos)
    else
      var (_, p) :- VarBytesAt(buf, pos);
      var (_, q) :- VarBytesAt(buf, p);
      HeadersAt(buf, q, n - 1)
  }

  function RecordAt(buf: bytes, pos: nat): (r: Parsed<Option<bytes>>)
    ensures r.Got? ==> pos < r.next <= |buf|
  {
    var (_, p0) :- VarintAt(buf, pos);
    var (_, p1) :- IntAt(buf, p0, 1);
    var (_, p2) :- VarlongAt(buf, p1);
    var (_, p3) :- VarintAt(buf, p2);
    var (_, p4) :- VarBytesAt(buf, p3);
    var (value, p5) :- VarBytesAt(buf, p4);
    var (count, p6) :- VarintAt(buf, p5);
    var (_, p7) :- HeadersAt(buf, p6, if count > 0 then count else 0);
    Got(value, p7)
  }

  function RecordsAt(buf: bytes, pos: nat, n: nat, values: seq<bytes>): (r: Parsed<seq<bytes>>)
    ensures r.Got? ==> pos <= r.next
    ensures r.Got? && pos <= |buf| ==> r.next <= |buf|
    decreases n
  {
    if n == 0 then Got(values, pos)
    else
      var (value, p) :- RecordAt(buf, pos);
      RecordsAt(buf, p, n - 1, values + Listed(value))
  }

  /** The v2 fields between the checksum and the records. */
  datatype V2Head = V2Head(attributes: int, producerId: int, producerEpoch: int, baseSequence: int, count: int)

  function V2HeadAt(buf: bytes, pos: nat): (r: Parsed<V2Head>)
    ensures r.Got? ==> pos < r.next <= |buf|
  {
    var (attributes, p0) :- IntAt(buf, pos, 2);
    var (_, p1) :- IntAt(buf, p0, 4);
    var (_, p2) :- IntAt(buf, p1, 8);
    var (_, p3) :- IntAt(buf, p2, 8);
    var (producerId, p4) :- IntAt(buf, p3, 8);
    var (producerEpoch, p5) :- IntAt(buf, p4, 2);
    var (baseSequence, p6) :- IntAt(buf, p5, 4);
    var (count, p7) :- IntAt(buf, p6, 4);
    Got(V2Head(attributes, producerId, producerEpoch, baseSequence, count), p7)
  }

  function Coord(h: V2Head): Option<EosCoord> {
    if h.producerId >= 0 && h.baseSequence >= 0 then
      Some(EosCoord(h.producerId, h.producerEpoch, h.baseSequence, h.count, (h.attributes / 16) % 2 == 1))
    else None
  }

  function Min(a: nat, b: nat): nat {
    if a <= b then a else b
  }

  function V2At(crc: Crc, blob: bytes, pos: nat, batchEnd: nat, values: seq<bytes>): (r: Parsed<Item>)
    ensures r.Got? ==> pos < r.next <= |blob|
  {
    var (stored, p) :- UintAt(blob, pos, 4);
    var end := Min(batchEnd, |blob|);
    if p > end then Failed(Invalid)
    else if crc(blob[p..end]) != stored then Failed(Corrupt)
    else
      var (head, q) :- V2HeadAt(blob, p);
      if head.count < 0 || head.attributes % 8 != 0 then Failed(Invalid)
      else
        var (all, next) :- RecordsAt(blob, q, head.count, values);
        Got(Item(all, Coord(head)), next)
  }

  function NullableBytesAt(buf: bytes, pos: nat): (r: Parsed<Option<bytes>>)
    ensures r.Got? ==> pos < r.next <= |buf|
  {
    var (n, p) :- IntAt(buf, pos, 4);
    if n == -1 then Got(None, p)
    else if n < 0 then Failed(Invalid)
    else
      var (b, q) :- TakeAt(buf, p, n);
      Got(Some(b), q)
  }

  function LegacyAt(buf: bytes, pos: nat, magic: int, values: seq<bytes>): (r: Parsed<Item>)
    ensures r.Got? ==> pos < r.next <= |buf|
  {
    var (attributes, p) :- IntAt(buf, pos, 1);
    if attributes % 8 != 0 then Failed(Invalid)
    else
      var (_, q) :- if magic >= 1 then IntAt(buf, p, 8) else Got(0, p);
      var (_, k) :- NullableBytesAt(buf, q);
      var (value, next) :- NullableBytesAt(buf, k);
      Got(Item(values + Listed(value), None), next)
  }

  function EntryAt(crc: Crc, blob: bytes, pos: nat, values: seq<bytes>): (r: Parsed<Item>)
    ensures r.Got? ==> pos < r.next <= |blob|
  {
    var (_, p0) :- IntAt(blob, pos, 8);
    var (length, p1) :- IntAt(blob, p0, 4);
    var (_, p2) :- UintAt(blob, p1, 4);
    var (magic, p3) :- IntAt(blob, p2, 1);
    if magic == 2 then V2At(crc, blob, p3, p1 + (if length > 0 then length else 0), values)
    else if magic == 0 || magic == 1 then LegacyAt(blob, p3, magic, values)
    else Failed(Invalid)
  }

  function ParseFrom(crc: Crc, blob: bytes, pos: nat, values: seq<bytes>, batches: nat, first: Option<EosCoord>)
    : Result<ParsedRecords, Fault>
    decreases |blob| - pos
  {
    if pos >= |blob| then Ok(ParsedRecords(values, if batches == 1 then first else None))
    else match EntryAt(crc, blob, pos, values)
      case Failed(e) => Err(e)
      case Got(item, next) =>
        ParseFrom(crc, blob, next, item.values, batches + 1, if batches == 0 then item.eos else first)
  }

  function Parse(crc: Crc, blob: bytes): Result<ParsedRecords, Fault> {
    ParseFrom(crc, blob, 0, [], 0, None)
  }

  method TakeVarBytes(reader: Reader) returns (r: Result<Option<bytes>, Fault>)
    modifies reader
    ensures Agrees(VarBytesAt(reader.buf, old(reader.pos)), r, reader.pos)
  {
    var len :- reader.TakeVarint();
    if len < 0 {
      return Ok(None);
    }
    var b :- reader.Take(len);
    return Ok(Some(b));
  }

  method TakeHeaders(reader: Reader, n: nat) returns (r: Result<(), Fault>)
    modifies reader
    ensures Agrees(HeadersAt(reader.buf, old(reader.pos), n), r, reader.pos)
  {
    for i := 0 to n
      invariant HeadersAt(reader.buf, reader.pos, n - i) == HeadersAt(reader.buf, old(reader.pos), n)
    {
      var _ :- TakeVarBytes(reader);
      var _ :- TakeVarBytes(reader);
    }
    return Ok(());
  }

  method TakeRecord(reader: Reader) returns (r: Result<Option<bytes>, Fault>)
    modifies reader
    ensures Agrees(RecordAt(reader.buf, old(reader.pos)), r, reader.pos)
  {
    var _ :- reader.TakeVarint();
    var _ :- reader.Int(1);
    var _ :- reader.TakeVarlong();
    var _ :- reader.TakeVarint();
    var _ :- TakeVarBytes(reader);
    var value :- TakeVarBytes(reader);
    var count :- reader.TakeVarint();
    var _ :- TakeHeaders(reader, if count > 0 then count else 0);
    return Ok(value);
  }

  method TakeRecords(reader: Reader, n: nat, values: seq<bytes>) returns (r: Result<seq<bytes>, Fault>)
    modifies reader
    ensures Agrees(RecordsAt(reader.buf, old(reader.pos), n, values), r, reader.pos)
  {
    hide RecordAt;
    var all := values;
    for i := 0 to n
      invariant RecordsAt(reader.buf, reader.pos, n - i, all) == RecordsAt(reader.buf, old(reader.pos), n, values)
    {
      var value :- TakeRecord(reader);
      all := all + Listed(value);
    }
    return Ok(all);
  }

  method TakeV2Head(reader: Reader) returns (r: Result<V2Head, Fault>)
    modifies reader
    ensures Agrees(V2HeadAt(reader.buf, old(reader.pos)), r, reader.pos)
  {
    var attributes :- reader.Int(2);
    var _ :- reader.Int(4);
    var _ :- reader.Int(8);
    var _ :- reader.Int(8);
    var producerId :- reader.Int(8);
    var producerEpoch :- reader.Int(2);
    var baseSequence :- reader.Int(4);
    var count :- reader.Int(4);
    return Ok(V2Head(attributes, producerId, producerEpoch, baseSequence, count));
  }

  method TakeV2(crc: Crc, reader: Reader, batchEnd: nat, values: seq<bytes>) returns (r: Result<Item, Fault>)
    modifies reader
    ensures Agrees(V2At(crc, reader.buf, old(reader.pos), batchEnd, values), r, reader.pos)
  {
    hide V2HeadAt, RecordsAt;
    var stored :- reader.Uint(4);
    var end := Min(batchEnd, |reader.buf|);
    if reader.pos > end {
      return Err(Invalid);
    }
    if crc(reader.buf[reader.pos..end]) != stored {
      return Err(Corrupt);
    }
    var head :- TakeV2Head(reader);
    if head.count < 0 || head.attributes % 8 != 0 {
      return Err(Invalid);
    }
    var all :- TakeRecords(reader, head.count, values);
    return Ok(Item(all, Coord(head)));
  }

  method TakeNullableBytes(reader: Reader) returns (r: Result<Option<bytes>, Fault>)
    modifies reader
    ensures Agrees(NullableBytesAt(reader.buf, old(reader.pos)), r, reader.pos)
  {
    var n :- reader.Int(4);
    if n == -1 {
      return Ok(None);
    }
    if n < 0 {
      return Err(Invalid);
    }
    var b :- reader.Take(n);
    return Ok(Some(b));
  }

  method TakeLegacy(reader: Reader, magic: int, values: seq<bytes>) returns (r: Result<Item, Fault>)
    modifies reader
    ensures Agrees(LegacyAt(reader.buf, old(reader.pos), magic, values), r, reader.pos)
  {
    var attributes :- reader.Int(1);
    if attributes % 8 != 0 {
      return Err(Invalid);
    }
    if magic >= 1 {
      var _ :- reader.Int(8);
    }
    var _ :- TakeNullableBytes(reader);
    var value :- TakeNullableBytes(reader);
    return Ok(Item(values + Listed(value), None));
  }

  method TakeEntry(crc: Crc, reader: Reader, values: seq<bytes>) returns (r: Result<Item, Fault>)
    modifies reader
    ensures Agrees(EntryAt(crc, reader.buf, old(reader.pos), values), r, reader.pos)
  {
    hide V2At, LegacyAt;
    var _ :- reader.Int(8);
    var length :- reader.Int(4);
    var batchEnd := reader.pos + (if length > 0 then length else 0);
    var _ :- reader.Uint(4);
    var magic :- reader.Int(1);
    if magic == 2 {
      r := TakeV2(crc, reader, batchEnd, values);
    } else if magic == 0 || magic == 1 {
      r := TakeLegacy(reader, magic, values);
    } else {
      r := Err(Invalid);
    }
  }

  /** parse_record_batch. */
  method ParseBlob(crc: Crc, blob: bytes) returns (r: Result<ParsedRecords, Fault>)
    ensures r == Parse(crc, blob)
  {
    hide EntryAt;
    var reader := new Reader(blob);
    var values, batches, first: Option<EosCoord> := [], 0, None;
    while reader.pos < |blob|
      invariant reader.buf == blob && batches >= 0
      invariant ParseFrom(crc, blob, reader.pos, values, batches, first) == Parse(crc, blob)
      decreases |blob| - reader.pos
    {
      var item :- TakeEntry(crc, reader, values);
      values := item.values;
      if batches == 0 {
        first := item.eos;
      }
      batches := batches + 1;
    }
    return Ok(ParsedRecords(values, if batches == 1 then first else None));
  }

  // ----- What the parser makes of the format -----

  /** The idempotent producer's coordinate of a batch. */
  function BatchCoord(b: Batch): Option<EosCoord> {
    if b.producerId >= 0 && b.baseSequence >= 0 then
      Some(EosCoord(b.producerId, b.producerEpoch, b.baseSequence, |b.records|, (b.attributes / 16) % 2 == 1))
    else None
  }

  /** Exactly-once is keyed only on a blob that is one idempotent v2 batch. */
  function BlobCoord(es: seq<Entry>): Option<EosCoord> {
    if |es| == 1 && es[0].V2? then BatchCoord(es[0].batch) else None
  }

  lemma {:induction false} SmallFits(n: int)
    requires -1 <= n <= I32_MAX
    ensures Fits(n, 4)
  {
    Widths();
  }

  lemma {:induction false} VarBytesRead(buf: bytes, pos: nat, o: Option<bytes>)
    requires FitsBytes(o) && Holds(buf, pos, VarBytes(o))
    ensures VarBytesAt(buf, pos) == Got(o, pos + |VarBytes(o)|)
  {
    hide Varint, VarintAt, Fits;
    if o.None? {
      SmallFits(-1);
      VarintReads(buf, pos, -1);
    } else {
      SmallFits(|o.value|);
      HoldsSplit(buf, pos, Varint(|o.value|), o.value);
      VarintReads(buf, pos, |o.value|);
    }
  }

  lemma {:induction false} HeadersRead(buf: bytes, pos: nat, hs: seq<Header>)
    requires FitsHeaders(hs) && Holds(buf, pos, HeaderBytes(hs))
    ensures HeadersAt(buf, pos, |hs|) == Got((), pos + |HeaderBytes(hs)|)
    decreases |hs|
  {
    hide VarBytes, VarBytesAt;
    if hs != [] {
      var k, v, rest := VarBytes(hs[0].key), VarBytes(hs[0].value), HeaderBytes(hs[1..]);
      HoldsSplit(buf, pos, k + v, rest);
      HoldsSplit(buf, pos, k, v);
      VarBytesRead(buf, pos, hs[0].key);
      VarBytesRead(buf, pos + |k|, hs[0].value);
      HeadersRead(buf, pos + |k + v|, hs[1..]);
    }
  }

  lemma {:induction false} RecordReads(buf: bytes, pos: nat, r: Record)
    requires FitsRecord(r) && Holds(buf, pos, RecordBytes(r))
    ensures RecordAt(buf, pos) == Got(r.value, pos + |RecordBytes(r)|)
  {
    hide Varint, VarintAt, VarlongAt, IntAt, Be, VarBytes, VarBytesAt, HeaderBytes, HeadersAt, Fits, Holds;
    var l, body := Varint(|RecordBody(r)|), RecordBody(r);
    var a, t, o := Be(r.attributes, 1), Varint(r.timestampDelta), Varint(r.offsetDelta);
    var k, v, c, h := VarBytes(r.key), VarBytes(r.value), Varint(|r.headers|), HeaderBytes(r.headers);
    HoldsSplit(buf, pos, l, body);
    SmallFits(|RecordBody(r)|);
    VarintReads(buf, pos, |RecordBody(r)|);
    var p := pos + |l|;
    BodySplits(buf, p, a, t, o, k, v, c, h);
    IntReads(buf, p, r.attributes, 1);
    VarlongReads(buf, p + |a|, r.timestampDelta);
    VarintReads(buf, p + |a + t|, r.offsetDelta);
    VarBytesRead(buf, p + |a + t + o|, r.key);
    VarBytesRead(buf, p + |a + t + o + k|, r.value);
    SmallFits(|r.headers|);
    VarintReads(buf, p + |a + t + o + k + v|, |r.headers|);
    HeadersRead(buf, p + |a + t + o + k + v + c|, r.headers);
  }

  lemma {:induction false} BodySplits(buf: bytes, p: nat, a: bytes, t: bytes, o: bytes, k: bytes, v: bytes, c: bytes,
                                      h: bytes)
    requires Holds(buf, p, a + t + o + k + v + c + h)
    ensures Holds(buf, p, a) && Holds(buf, p + |a|, t) && Holds(buf, p + |a + t|, o)
    ensures Holds(buf, p + |a + t + o|, k) && Holds(buf, p + |a + t + o + k|, v)
    ensures Holds(buf, p + |a + t + o + k + v|, c) && Holds(buf, p + |a + t + o + k + v + c|, h)
  {
    hide Holds;
    HoldsSplit(buf, p, a + t + o + k + v + c, h);
    HoldsSplit(buf, p, a + t + o + k + v, c);
    HoldsSplit(buf, p, a + t + o + k, v);
    HoldsSplit(buf, p, a + t + o, k);
    HoldsSplit(buf, p, a + t, o);
    HoldsSplit(buf, p, a, t);
  }

  lemma {:induction false} Regroup<T>(a: seq<T>, b: seq<T>, c: seq<T>)
    ensures a + b + c == a + (b + c)
  {
  }

  lemma {:induction false} RecordsRead(buf: bytes, pos: nat, rs: seq<Record>, values: seq<bytes>)
    requires (forall r <- rs :: FitsRecord(r)) && Holds(buf, pos, Records(rs))
    ensures RecordsAt(buf, pos, |rs|, values) == Got(values + RecordValues(rs), pos + |Records(rs)|)
    decreases |rs|
  {
    hide FitsRecord, RecordBytes, RecordAt, Holds, Listed;
    if rs == [] {
      assert values + RecordValues(rs) == values;
    } else {
      var one, rest := rs[0], rs[1..];
      HoldsSplit(buf, pos, RecordBytes(one), Records(rest));
      RecordReads(buf, pos, one);
      RecordsRead(buf, pos + |RecordBytes(one)|, rest, values + Listed(one.value));
      Regroup(values, Listed(one.value), RecordValues(rest));
    }
  }

  lemma {:induction false} V2HeadReads(buf: bytes, pos: nat, b: Batch)
    requires FitsFields(b) && Holds(buf, pos, Covered(b))
    ensures Holds(buf, pos + 40, Records(b.records)) && |Covered(b)| == 40 + |Records(b.records)|
    ensures V2HeadAt(buf, pos) ==
            Got(V2Head(b.attributes, b.producerId, b.producerEpoch, b.baseSequence, |b.records|), pos + 40)
  {
    hide IntAt, Be, Fits, Holds, Records;
    var a, l, t, m := Be(b.attributes, 2), Be(b.lastOffsetDelta, 4), Be(b.baseTimestamp, 8), Be(b.maxTimestamp, 8);
    var i, e, s, c := Be(b.producerId, 8), Be(b.producerEpoch, 2), Be(b.baseSequence, 4), Be(|b.records|, 4);
    HoldsSplit(buf, pos, a + l + t + m + i + e + s + c, Records(b.records));
    HoldsSplit(buf, pos, a + l + t + m + i + e + s, c);
    BodySplits(buf, pos, a, l, t, m, i, e, s);
    SmallFits(|b.records|);
    IntReads(buf, pos, b.attributes, 2);
    IntReads(buf, pos + 2, b.lastOffsetDelta, 4);
    IntReads(buf, pos + 6, b.baseTimestamp, 8);
    IntReads(buf, pos + 14, b.maxTimestamp, 8);
    IntReads(buf, pos + 22, b.producerId, 8);
    IntReads(buf, pos + 30, b.producerEpoch, 2);
    IntReads(buf, pos + 32, b.baseSequence, 4);
    IntReads(buf, pos + 36, |b.records|, 4);
  }

  lemma {:induction false} V2Reads(crc: Crc, blob: bytes, pos: nat, b: Batch, values: seq<bytes>)
    requires IsCrc(crc) && FitsBatch(b) && Holds(blob, pos, Be(crc(Covered(b)), 4) + Covered(b))
    ensures V2At(crc, blob, pos, pos + 4 + |Covered(b)|, values) ==
            Got(Item(values + RecordValues(b.records), BatchCoord(b)), pos + 4 + |Covered(b)|)
  {
    hide Be, Covered, UintAt, V2HeadAt, RecordsAt, Records, RecordBytes, FitsRecord, RecordValues;
    HoldsSplit(blob, pos, Be(crc(Covered(b)), 4), Covered(b));
    UintReads(blob, pos, crc(Covered(b)), 4);
    V2HeadReads(blob, pos + 4, b);
    RecordsRead(blob, pos + 44, b.records, values);
  }

  /** The parser reaches a framed batch's checksum whatever that checksum is. */
  lemma {:induction false} FrameReads(crc: Crc, blob: bytes, pos: nat, baseOffset: int, leaderEpoch: int, stored: nat,
                                      covered: bytes, values: seq<bytes>)
    requires Fits(baseOffset, 8) && 9 + |covered| <= I32_MAX
    requires Holds(blob, pos, Framed(baseOffset, leaderEpoch, stored, covered))
    ensures Holds(blob, pos + 17, Be(stored, 4) + covered)
    ensures EntryAt(crc, blob, pos, values) == V2At(crc, blob, pos + 17, pos + 21 + |covered|, values)
  {
    hide Be, UintAt, IntAt, V2At, Fits, Holds;
    var o, n, e, m := Be(baseOffset, 8), Be(9 + |covered|, 4), Be(leaderEpoch, 4), Be(2, 1);
    var tail := Tail(leaderEpoch, stored, covered);
    HoldsSplit(blob, pos, o + n, tail);
    HoldsSplit(blob, pos, o, n);
    assert tail == e + m + (Be(stored, 4) + covered);
    HoldsSplit(blob, pos + 12, e + m, Be(stored, 4) + covered);
    HoldsSplit(blob, pos + 12, e, m);
    SmallFits(9 + |covered|);
    IntReads(blob, pos, baseOffset, 8);
    IntReads(blob, pos + 8, 9 + |covered|, 4);
    Unsigned(blob, pos + 12, leaderEpoch);
    Bytewide(2);
    IntReads(blob, pos + 16, 2, 1);
  }

  lemma {:induction false} BatchReads(crc: Crc, blob: bytes, pos: nat, b: Batch, values: seq<bytes>)
    requires IsCrc(crc) && FitsBatch(b) && Holds(blob, pos, BatchBytes(crc, b))
    ensures EntryAt(crc, blob, pos, values) ==
            Got(Item(values + RecordValues(b.records), BatchCoord(b)), pos + |BatchBytes(crc, b)|)
  {
    hide Covered, EntryAt, V2At, RecordValues, Fits, FitsRecord, Holds, IsCrc, Framed, BatchCoord;
    FrameReads(crc, blob, pos, b.baseOffset, b.leaderEpoch, crc(Covered(b)), Covered(b), values);
    V2Reads(crc, blob, pos + 17, b, values);
  }

  lemma {:induction false} Bytewide(n: int)
    requires -128 <= n < 128
    ensures Fits(n, 1)
  {
    assert Pow256(1) == 256;
  }

  /** Four bytes read as some unsigned number, whatever was written. */
  lemma {:induction false} Unsigned(buf: bytes, pos: nat, n: int)
    requires Holds(buf, pos, Be(n, 4))
    ensures UintAt(buf, pos, 4).Got? && UintAt(buf, pos, 4).next == pos + 4
  {
  }

  lemma {:induction false} NullableBytesRead(buf: bytes, pos: nat, o: Option<bytes>)
    requires FitsBytes(o) && Holds(buf, pos, NullableBytes(o))
    ensures NullableBytesAt(buf, pos) == Got(o, pos + |NullableBytes(o)|)
  {
    hide Be, IntAt, Fits;
    if o.None? {
      SmallFits(-1);
      IntReads(buf, pos, -1, 4);
    } else {
      SmallFits(|o.value|);
      HoldsSplit(buf, pos, Be(|o.value|, 4), o.value);
      IntReads(buf, pos, |o.value|, 4);
    }
  }

  lemma {:induction false} MessageReads(crc: Crc, blob: bytes, pos: nat, m: Message, values: seq<bytes>)
    requires FitsMessage(m) && Holds(blob, pos, MessageBytes(m))
    ensures EntryAt(crc, blob, pos, values) == Got(Item(values + Listed(m.value), None), pos + |MessageBytes(m)|)
  {
    hide Be, UintAt, IntAt, V2At, LegacyAt, Fits, Holds, NullableBytes;
    var o, s, c, g, a := Be(m.offset, 8), Be(m.size, 4), Be(m.crc, 4), Be(m.magic, 1), Be(m.attributes, 1);
    var t := if m.magic >= 1 then Be(m.timestamp, 8) else [];
    var k, v := NullableBytes(m.key), NullableBytes(m.value);
    HoldsSplit(blob, pos, o + s + c + g + a + t + k, v);
    BodySplits(blob, pos, o, s, c, g, a, t, k);
    IntReads(blob, pos, m.offset, 8);
    IntReads(blob, pos + 8, m.size, 4);
    UintReads(blob, pos + 12, m.crc, 4);
    Bytewide(m.magic);
    IntReads(blob, pos + 16, m.magic, 1);
    LegacyReads(blob, pos + 17, m, values);
  }

  lemma {:induction false} LegacyReads(blob: bytes, pos: nat, m: Message, values: seq<bytes>)
    requires FitsMessage(m) && Holds(blob, pos, Be(m.attributes, 1))
    requires Holds(blob, pos + 1, if m.magic >= 1 then Be(m.timestamp, 8) else [])
    requires var p := pos + (if m.magic >= 1 then 9 else 1);
             Holds(blob, p, NullableBytes(m.key)) && Holds(blob, p + |NullableBytes(m.key)|, NullableBytes(m.value))
    ensures var p := pos + (if m.magic >= 1 then 9 else 1);
            LegacyAt(blob, pos, m.magic, values) ==
            Got(Item(values + Listed(m.value), None), p + |NullableBytes(m.key)| + |NullableBytes(m.value)|)
  {
    hide Be, IntAt, NullableBytesAt, Fits, Holds, NullableBytes;
    var p := pos + (if m.magic >= 1 then 9 else 1);
    IntReads(blob, pos, m.attributes, 1);
    if m.magic >= 1 {
      IntReads(blob, pos + 1, m.timestamp, 8);
    }
    NullableBytesRead(blob, p, m.key);
    NullableBytesRead(blob, p + |NullableBytes(m.key)|, m.value);
  }

  lemma {:induction false} EntryReads(crc: Crc, blob: bytes, pos: nat, e: Entry, values: seq<bytes>)
    requires IsCrc(crc) && FitsEntry(e) && Holds(blob, pos, EntryBytes(crc, e))
    ensures EntryAt(crc, blob, pos, values) ==
            Got(Item(values + EntryValues(e), BlobCoord([e])), pos + |EntryBytes(crc, e)|)
  {
    hide EntryAt, BatchBytes, MessageBytes, FitsBatch, FitsMessage, Holds, BatchCoord, RecordValues;
    match e
    case V2(b) => BatchReads(crc, blob, pos, b, values);
    case Legacy(m) => MessageReads(crc, blob, pos, m, values);
  }

  /** Parsing past a run of entries: what the loop carries on with. */
  lemma {:induction false} EntriesRead(crc: Crc, blob: bytes, pos: nat, es: seq<Entry>, values: seq<bytes>,
                                       batches: nat, first: Option<EosCoord>)
    requires IsCrc(crc) && (forall e <- es :: FitsEntry(e)) && Holds(blob, pos, Blob(crc, es))
    ensures ParseFrom(crc, blob, pos, values, batches, first) ==
            ParseFrom(crc, blob, pos + |Blob(crc, es)|, values + AllValues(es), batches + |es|,
                      if batches == 0 && es != [] then BlobCoord([es[0]]) else first)
    decreases |es|
  {
    hide EntryAt, EntryBytes, FitsEntry, Holds, EntryValues, IsCrc, BlobCoord;
    if es == [] {
      assert values + AllValues(es) == values;
    } else {
      var one, rest := es[0], es[1..];
      HoldsSplit(blob, pos, EntryBytes(crc, one), Blob(crc, rest));
      EntryReads(crc, blob, pos, one, values);
      EntriesRead(crc, blob, pos + |EntryBytes(crc, one)|, rest, values + EntryValues(one), batches + 1,
                  if batches == 0 then BlobCoord([one]) else first);
      Regroup(values, EntryValues(one), AllValues(rest));
    }
  }

  /**
   A blob of any uncompressed entries, v2 and legacy mixed, parses to the end: every non-null value in order,
   and an exactly-once coordinate just when the blob is one idempotent v2 batch.
   */
  lemma {:induction false} ParsesEverything(crc: Crc, es: seq<Entry>)
    requires IsCrc(crc) && forall e <- es :: FitsEntry(e)
    ensures Parse(crc, Blob(crc, es)) == Ok(ParsedRecords(AllValues(es), BlobCoord(es)))
  {
    hide EntryAt, FitsEntry, BatchCoord, EntryBytes, EntryValues, IsCrc;
    EntriesRead(crc, Blob(crc, es), 0, es, [], 0, None);
    assert [] + AllValues(es) == AllValues(es);
    assert |es| == 1 ==> es == [es[0]];
  }

  /**
   A v2 batch whose checksum disagrees with the bytes it covers, whatever those bytes are, rejects the whole
   blob as corrupt: nothing of it, and nothing parsed before it, is returned.
   */
  lemma {:induction false} CorruptRejected(crc: Crc, es: seq<Entry>, baseOffset: int, leaderEpoch: int, stored: nat,
                                           covered: bytes, rest: bytes)
    requires IsCrc(crc) && forall e <- es :: FitsEntry(e)
    requires Fits(baseOffset, 8) && stored < Pow256(4) && 9 + |covered| <= I32_MAX && crc(covered) != stored
    ensures Parse(crc, Blob(crc, es) + Framed(baseOffset, leaderEpoch, stored, covered) + rest) == Err(Corrupt)
  {
    hide EntryAt, ParseFrom, FitsEntry, Blob, IsCrc, Fits, Framed, Holds, Be, UintAt, BlobCoord, AllValues, V2At;
    var before, frame := Blob(crc, es), Framed(baseOffset, leaderEpoch, stored, covered);
    var blob, pos := before + frame + rest, |before|;
    Located(before, frame, rest);
    EntriesRead(crc, blob, 0, es, [], 0, None);
    var values := [] + AllValues(es);
    FrameReads(crc, blob, pos, baseOffset, leaderEpoch, stored, covered, values);
    HoldsSplit(blob, pos + 17, Be(stored, 4), covered);
    UintReads(blob, pos + 17, stored, 4);
    Disagrees(crc, blob, pos + 17, stored, covered, values);
    StopsAt(crc, blob, pos, values, |es|, if es != [] then BlobCoord([es[0]]) else None);
  }

  /** With the compression feature off, a compressed batch rejects the whole blob, whatever is in it. */
  lemma {:induction false} CompressedRejected(crc: Crc, es: seq<Entry>, b: Batch, rest: bytes)
    requires IsCrc(crc) && (forall e <- es :: FitsEntry(e)) && FitsFields(b) && b.attributes % 8 != 0
    ensures Parse(crc, Blob(crc, es) + BatchBytes(crc, b) + rest) == Err(Invalid)
  {
    hide EntryAt, ParseFrom, FitsEntry, Blob, IsCrc, Fits, Framed, Holds, Be, BlobCoord, AllValues, V2At, Covered, FitsRecord;
    var before, covered := Blob(crc, es), Covered(b);
    var blob, pos := before + BatchBytes(crc, b) + rest, |before|;
    Located(before, BatchBytes(crc, b), rest);
    EntriesRead(crc, blob, 0, es, [], 0, None);
    var values := [] + AllValues(es);
    FrameReads(crc, blob, pos, b.baseOffset, b.leaderEpoch, crc(covered), covered, values);
    CompressedFails(crc, blob, pos + 17, b, values);
    StopsAt(crc, blob, pos, values, |es|, if es != [] then BlobCoord([es[0]]) else None);
  }

  lemma {:induction false} CompressedFails(crc: Crc, blob: bytes, pos: nat, b: Batch, values: seq<bytes>)
    requires IsCrc(crc) && FitsFields(b) && b.attributes % 8 != 0 && Holds(blob, pos, Be(crc(Covered(b)), 4) + Covered(b))
    ensures V2At(crc, blob, pos, pos + 4 + |Covered(b)|, values) == Failed(Invalid)
  {
    hide Be, Covered, UintAt, V2HeadAt, RecordsAt, Records, RecordBytes, FitsRecord, Fits;
    HoldsSplit(blob, pos, Be(crc(Covered(b)), 4), Covered(b));
    UintReads(blob, pos, crc(Covered(b)), 4);
    V2HeadReads(blob, pos + 4, b);
  }

  /** So does an entry of a format the parser does not know. */
  lemma {:induction false} UnknownMagicRejected(crc: Crc, es: seq<Entry>, offset: int, size: int, word: int, magic: int,
                                                rest: bytes)
    requires IsCrc(crc) && (forall e <- es :: FitsEntry(e))
    requires Fits(offset, 8) && Fits(size, 4) && Fits(magic, 1) && !(0 <= magic <= 2)
    ensures Parse(crc, Blob(crc, es) + (Be(offset, 8) + Be(size, 4) + Be(word, 4) + Be(magic, 1)) + rest) == Err(Invalid)
  {
    hide EntryAt, ParseFrom, FitsEntry, Blob, IsCrc, Fits, Holds, Be, BlobCoord, AllValues;
    var before, head := Blob(crc, es), Be(offset, 8) + Be(size, 4) + Be(word, 4) + Be(magic, 1);
    var blob, pos := before + head + rest, |before|;
    Located(before, head, rest);
    EntriesRead(crc, blob, 0, es, [], 0, None);
    var values := [] + AllValues(es);
    UnknownFails(crc, blob, pos, offset, size, word, magic, values);
    StopsAt(crc, blob, pos, values, |es|, if es != [] then BlobCoord([es[0]]) else None);
  }

  lemma {:induction false} UnknownFails(crc: Crc, blob: bytes, pos: nat, offset: int, size: int, word: int, magic: int,
                                        values: seq<bytes>)
    requires Fits(offset, 8) && Fits(size, 4) && Fits(magic, 1) && !(0 <= magic <= 2)
    requires Holds(blob, pos, Be(offset, 8) + Be(size, 4) + Be(word, 4) + Be(magic, 1))
    ensures EntryAt(crc, blob, pos, values) == Failed(Invalid)
  {
    hide Be, UintAt, IntAt, V2At, LegacyAt, Fits, Holds;
    var o, n, e, m := Be(offset, 8), Be(size, 4), Be(word, 4), Be(magic, 1);
    HoldsSplit(blob, pos, o + n + e, m);
    HoldsSplit(blob, pos, o + n, e);
    HoldsSplit(blob, pos, o, n);
    IntReads(blob, pos, offset, 8);
    IntReads(blob, pos + 8, size, 4);
    Unsigned(blob, pos + 12, word);
    IntReads(blob, pos + 16, magic, 1);
  }

  /** And a compressed legacy message. */
  lemma {:induction false} CompressedMessageRejected(crc: Crc, es: seq<Entry>, offset: int, size: int, word: int,
                                                     magic: int, attributes: int, rest: bytes)
    requires IsCrc(crc) && (forall e <- es :: FitsEntry(e))
    requires Fits(offset, 8) && Fits(size, 4) && 0 <= magic <= 1 && Fits(attributes, 1) && attributes % 8 != 0
    ensures Parse(crc, Blob(crc, es) + (Be(offset, 8) + Be(size, 4) + Be(word, 4) + Be(magic, 1) + Be(attributes, 1)) + rest)
            == Err(Invalid)
  {
    hide EntryAt, ParseFrom, FitsEntry, Blob, IsCrc, Fits, Holds, Be, BlobCoord, AllValues;
    var before := Blob(crc, es);
    var head := Be(offset, 8) + Be(size, 4) + Be(word, 4) + Be(magic, 1) + Be(attributes, 1);
    var blob, pos := before + head + rest, |before|;
    Located(before, head, rest);
    EntriesRead(crc, blob, 0, es, [], 0, None);
    var values := [] + AllValues(es);
    CompressedMessageFails(crc, blob, pos, offset, size, word, magic, attributes, values);
    StopsAt(crc, blob, pos, values, |es|, if es != [] then BlobCoord([es[0]]) else None);
  }

  lemma {:induction false} CompressedMessageFails(crc: Crc, blob: bytes, pos: nat, offset: int, size: int, word: int,
                                                  magic: int, attributes: int, values: seq<bytes>)
    requires Fits(offset, 8) && Fits(size, 4) && 0 <= magic <= 1 && Fits(attributes, 1) && attributes % 8 != 0
    requires Holds(blob, pos, Be(offset, 8) + Be(size, 4) + Be(word, 4) + Be(magic, 1) + Be(attributes, 1))
    ensures EntryAt(crc, blob, pos, values) == Failed(Invalid)
  {
    hide Be, UintAt, IntAt, V2At, Fits, Holds;
    var o, n, e, m, a := Be(offset, 8), Be(size, 4), Be(word, 4), Be(magic, 1), Be(attributes, 1);
    HoldsSplit(blob, pos, o + n + e + m, a);
    HoldsSplit(blob, pos, o + n + e, m);
    HoldsSplit(blob, pos, o + n, e);
    HoldsSplit(blob, pos, o, n);
    IntReads(blob, pos, offset, 8);
    IntReads(blob, pos + 8, size, 4);
    Unsigned(blob, pos + 12, word);
    Bytewide(magic);
    IntReads(blob, pos + 16, magic, 1);
    IntReads(blob, pos + 17, attributes, 1);
  }

  lemma {:induction false} Located(a: bytes, b: bytes, c: bytes)
    ensures Holds(a + b + c, 0, a) && Holds(a + b + c, |a|, b)
  {
    assert Holds(a + b + c, 0, a + b + c);
    HoldsSplit(a + b + c, 0, a + b, c);
    HoldsSplit(a + b + c, 0, a, b);
  }

  lemma {:induction false} StopsAt(crc: Crc, blob: bytes, pos: nat, values: seq<bytes>, batches: nat,
                                   first: Option<EosCoord>)
    requires pos < |blob| && EntryAt(crc, blob, pos, values).Failed?
    ensures ParseFrom(crc, blob, pos, values, batches, first) == Err(EntryAt(crc, blob, pos, values).error)
  {
    hide EntryAt;
  }

  lemma {:induction false} Disagrees(crc: Crc, blob: bytes, pos: nat, stored: nat, covered: bytes, values: seq<bytes>)
    requires UintAt(blob, pos, 4) == Got(stored, pos + 4) && Holds(blob, pos + 4, covered) && crc(covered) != stored
    ensures V2At(crc, blob, pos, pos + 4 + |covered|, values) == Failed(Corrupt)
  {
  }
}
