/** The v2 record batch and the legacy message as they stand on the wire. */
module RecordFormat {
  import opened Wrappers
  import opened Bytes
  import opened WireCodec

  datatype Header = Header(key: Option<bytes>, value: Option<bytes>)

  datatype Record = Record(attributes: int, timestampDelta: int, offsetDelta: int, key: Option<bytes>,
                           value: Option<bytes>, headers: seq<Header>)

  datatype Batch = Batch(baseOffset: int, leaderEpoch: int, attributes: int, lastOffsetDelta: int,
                         baseTimestamp: int, maxTimestamp: int, producerId: int, producerEpoch: int,
                         baseSequence: int, records: seq<Record>)

  datatype Message = Message(offset: int, size: int, crc: nat, magic: int, attributes: int, timestamp: int,
                             key: Option<bytes>, value: Option<bytes>)

  datatype Entry = V2(batch: Batch) | Legacy(message: Message)

  /** The checksum: any function into 32 bits. */
  type Crc = bytes -> nat

  ghost predicate IsCrc(crc: Crc) {
    forall b {:trigger crc(b)} :: crc(b) < Pow256(4)
  }

  const I32_MAX: nat := 0x7fff_ffff

  /** i32::try_from(n).unwrap_or(i32::MAX). */
  function Clamp(n: nat): nat {
    if n <= I32_MAX then n else I32_MAX
  }

  function VarBytes(o: Option<bytes>): bytes {
    if o.None? then Varint(-1) else Varint(Clamp(|o.value|)) + o.value
  }

  function HeaderBytes(hs: seq<Header>): bytes {
    if hs == [] then [] else VarBytes(hs[0].key) + VarBytes(hs[0].value) + HeaderBytes(hs[1..])
  }

  function RecordBody(r: Record): bytes {
    Be(r.attributes, 1) + Varint(r.timestampDelta) + Varint(r.offsetDelta) + VarBytes(r.key) + VarBytes(r.value)
    + Varint(Clamp(|r.headers|)) + HeaderBytes(r.headers)
  }

  function RecordBytes(r: Record): bytes {
    Varint(Clamp(|RecordBody(r)|)) + RecordBody(r)
  }

  function Records(rs: seq<Record>): bytes {
    if rs == [] then [] else RecordBytes(rs[0]) + Records(rs[1..])
  }

  /** What the checksum covers: attributes to the end of the records. */
  function Covered(b: Batch): bytes {
    Be(b.attributes, 2) + Be(b.lastOffsetDelta, 4) + Be(b.baseTimestamp, 8) + Be(b.maxTimestamp, 8)
    + Be(b.producerId, 8) + Be(b.producerEpoch, 2) + Be(b.baseSequence, 4) + Be(Clamp(|b.records|), 4)
    + Records(b.records)
  }

  /** What the batch length counts: leader epoch, magic, the stored checksum and the bytes it covers. */
  function Tail(leaderEpoch: int, stored: nat, covered: bytes): (t: bytes)
    ensures |t| == 9 + |covered|
  {
    Be(leaderEpoch, 4) + Be(2, 1) + Be(stored, 4) + covered
  }

  function Framed(baseOffset: int, leaderEpoch: int, stored: nat, covered: bytes): (f: bytes)
    ensures |f| == 21 + |covered|
  {
    Be(baseOffset, 8) + Be(Clamp(9 + |covered|), 4) + Tail(leaderEpoch, stored, covered)
  }

  function BatchBytes(crc: Crc, b: Batch): bytes {
    Framed(b.baseOffset, b.leaderEpoch, crc(Covered(b)), Covered(b))
  }

  function NullableBytes(o: Option<bytes>): bytes {
    if o.None? then Be(-1, 4) else Be(Clamp(|o.value|), 4) + o.value
  }

  function MessageBytes(m: Message): bytes {
    Be(m.offset, 8) + Be(m.size, 4) + Be(m.crc, 4) + Be(m.magic, 1) + Be(m.attributes, 1)
    + (if m.magic >= 1 then Be(m.timestamp, 8) else []) + NullableBytes(m.key) + NullableBytes(m.value)
  }

  function EntryBytes(crc: Crc, e: Entry): bytes {
    match e
    case V2(b) => BatchBytes(crc, b)
    case Legacy(m) => MessageBytes(m)
  }

  function Blob(crc: Crc, es: seq<Entry>): bytes {
    if es == [] then [] else EntryBytes(crc, es[0]) + Blob(crc, es[1..])
  }

  function Listed(o: Option<bytes>): seq<bytes> {
    if o.Some? then [o.value] else []
  }

  /** The lengths and numbers fit the fields that carry them. */
  ghost predicate FitsBytes(o: Option<bytes>) {
    o.Some? ==> |o.value| <= I32_MAX
  }

  ghost predicate FitsHeaders(hs: seq<Header>) {
    |hs| <= I32_MAX && forall h <- hs :: FitsBytes(h.key) && FitsBytes(h.value)
  }

  ghost predicate FitsRecord(r: Record) {
    Fits(r.attributes, 1) && Fits(r.timestampDelta, 8) && Fits(r.offsetDelta, 4) && FitsBytes(r.key) &&
    FitsBytes(r.value) && FitsHeaders(r.headers) && |RecordBody(r)| <= I32_MAX
  }

  /** A batch whose fields fit. */
  ghost predicate FitsFields(b: Batch) {
    Fits(b.baseOffset, 8) && Fits(b.leaderEpoch, 4) && Fits(b.attributes, 2) && Fits(b.lastOffsetDelta, 4) &&
    Fits(b.baseTimestamp, 8) && Fits(b.maxTimestamp, 8) && Fits(b.producerId, 8) && Fits(b.producerEpoch, 2) &&
    Fits(b.baseSequence, 4) && |b.records| <= I32_MAX && (forall r <- b.records :: FitsRecord(r)) &&
    9 + |Covered(b)| <= I32_MAX
  }

  /** And which is not compressed. */
  ghost predicate FitsBatch(b: Batch) {
    FitsFields(b) && b.attributes % 8 == 0
  }

  /** An uncompressed legacy message whose fields fit. */
  ghost predicate FitsMessage(m: Message) {
    Fits(m.offset, 8) && Fits(m.size, 4) && m.crc < Pow256(4) && 0 <= m.magic <= 1 && Fits(m.attributes, 1) &&
    m.attributes % 8 == 0 && Fits(m.timestamp, 8) && FitsBytes(m.key) && FitsBytes(m.value)
  }

  ghost predicate FitsEntry(e: Entry) {
    match e
    case V2(b) => FitsBatch(b)
    case Legacy(m) => FitsMessage(m)
  }

  /** The values a consumer of these records sees: a null value is no value. */
  function RecordValues(rs: seq<Record>): seq<bytes> {
    if rs == [] then [] else Listed(rs[0].value) + RecordValues(rs[1..])
  }

  function EntryValues(e: Entry): seq<bytes> {
    match e
    case V2(b) => RecordValues(b.records)
    case Legacy(m) => Listed(m.value)
  }

  function AllValues(es: seq<Entry>): seq<bytes> {
    if es == [] then [] else EntryValues(es[0]) + AllValues(es[1..])
  }
}
