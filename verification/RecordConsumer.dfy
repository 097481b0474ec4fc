/**
 What a consumer of a Fetch answer reads in a built batch: every field of the header and of each record, the lengths
 checked against the bytes. The parser of Produce requests skips most of these.
 */
module RecordConsumer {
  import opened Wrappers
  import opened Bytes
  import opened WireCodec
  import opened RecordFormat
  import opened RecordParser
  import opened RecordBuilder

  /** A record at its offset in the partition. */
  datatype Seen = Seen(offset: int, timestamp: int, key: Option<bytes>, value: Option<bytes>)

  datatype View = View(baseOffset: int, leaderEpoch: int, attributes: int, lastOffset: int, baseTimestamp: int,
                       maxTimestamp: int, producerId: int, producerEpoch: int, baseSequence: int, records: seq<Seen>)

  /** One record; its length field must say where it ends. */
  function SeenAt(buf: bytes, pos: nat, base: int, time: int): (r: Parsed<Seen>)
    ensures r.Got? ==> pos < r.next <= |buf|
  {
    var (length, p0) :- VarintAt(buf, pos);
    var (_, p1) :- IntAt(buf, p0, 1);
    var (timestamp, p2) :- VarlongAt(buf, p1);
    var (delta, p3) :- VarintAt(buf, p2);
    var (key, p4) :- VarBytesAt(buf, p3);
    var (value, p5) :- VarBytesAt(buf, p4);
    var (count, p6) :- VarintAt(buf, p5);
    var (_, p7) :- HeadersAt(buf, p6, if count > 0 then count else 0);
    if p7 != p0 + length then Failed(Invalid) else Got(Seen(base + delta, time + timestamp, key, value), p7)
  }

  function SeenFrom(buf: bytes, pos: nat, n: nat, base: int, time: int): (r: Parsed<seq<Seen>>)
    decreases n
  {
    if n == 0 then Got([], pos)
    else
      var (one, p) :- SeenAt(buf, pos, base, time);
      var (rest, q) :- SeenFrom(buf, p, n - 1, base, time);
      Got([one] + rest, q)
  }

  /** A whole batch; the batch length must reach exactly to the end, and the checksum must agree. */
  function ViewOf(crc: Crc, buf: bytes): (r: Parsed<View>) {
    var (base, p0) :- IntAt(buf, 0, 8);
    var (length, p1) :- IntAt(buf, p0, 4);
    var (leaderEpoch, p2) :- IntAt(buf, p1, 4);
    var (magic, p3) :- IntAt(buf, p2, 1);
    var (stored, p4) :- UintAt(buf, p3, 4);
    if magic != 2 || p1 + length != |buf| then Failed(Invalid)
    else if crc(buf[p4..]) != stored then Failed(Corrupt)
    else
      var (attributes, q0) :- IntAt(buf, p4, 2);
      var (last, q1) :- IntAt(buf, q0, 4);
      var (time, q2) :- IntAt(buf, q1, 8);
      var (maxTime, q3) :- IntAt(buf, q2, 8);
      var (producerId, q4) :- IntAt(buf, q3, 8);
      var (producerEpoch, q5) :- IntAt(buf, q4, 2);
      var (baseSequence, q6) :- IntAt(buf, q5, 4);
      var (count, q7) :- IntAt(buf, q6, 4);
      if count < 0 then Failed(Invalid)
      else
        var (records, end) :- SeenFrom(buf, q7, count, base, time);
        if end != |buf| then Failed(Invalid)
        else Got(View(base, leaderEpoch, attributes, base + last, time, maxTime, producerId, producerEpoch, baseSequence,
                      records), end)
  }

  // ----- Every batch reads back -----

  function SeenOf(r: Record, base: int, time: int): Seen {
    Seen(base + r.offsetDelta, time + r.timestampDelta, r.key, r.value)
  }

  function SeenAll(rs: seq<Record>, base: int, time: int): seq<Seen> {
    if rs == [] then [] else [SeenOf(rs[0], base, time)] + SeenAll(rs[1..], base, time)
  }

  lemma {:induction false} SeenReads(buf: bytes, pos: nat, r: Record, base: int, time: int)
    requires FitsRecord(r) && Holds(buf, pos, RecordBytes(r))
    ensures SeenAt(buf, pos, base, time) == Got(SeenOf(r, base, time), pos + |RecordBytes(r)|)
  {
    hide Varint, VarintAt, VarlongAt, IntAt, Be, VarBytes, VarBytesAt, HeaderBytes, HeadersAt, Fits, Holds;
    var l, body := Varint(|RecordBody(r)|), RecordBody(r);
    var a, t, o := Be(r.attributes, 1), Varint(r.timestampDelta), Varint(r.offsetDelta);
    var k, v, c, h := VarBytes(r.key), VarBytes(r.value), Varint(|r.headers|), HeaderBytes(r.headers);
    HoldsSplit(buf, pos, l, body);
    SmallFits(|RecordBody(r)|);
    VarintReads(buf, pos, |RecordBody(r)|);
    var p := pos + |l|;
    BodySplits(buf, p, a, t, o, k, v, c, h);
    IntReads(buf, p, r.attributes, 1);
    VarlongReads(buf, p + |a|, r.timestampDelta);
    VarintReads(buf, p + |a + t|, r.offsetDelta);
    VarBytesRead(buf, p + |a + t + o|, r.key);
    VarBytesRead(buf, p + |a + t + o + k|, r.value);
    SmallFits(|r.headers|);
    VarintReads(buf, p + |a + t + o + k + v|, |r.headers|);
    HeadersRead(buf, p + |a + t + o + k + v + c|, r.headers);
  }

  lemma {:induction false} SeenFromReads(buf: bytes, pos: nat, rs: seq<Record>, base: int, time: int)
    requires (forall r <- rs :: FitsRecord(r)) && Holds(buf, pos, Records(rs))
    ensures SeenFrom(buf, pos, |rs|, base, time) == Got(SeenAll(rs, base, time), pos + |Records(rs)|)
    decreases |rs|
  {
    hide FitsRecord, RecordBytes, SeenAt, Holds, SeenOf;
    if rs != [] {
      var one, rest := rs[0], rs[1..];
      HoldsSplit(buf, pos, RecordBytes(one), Records(rest));
      SeenReads(buf, pos, one, base, time);
      SeenFromReads(buf, pos + |RecordBytes(one)|, rest, base, time);
    }
  }

  lemma {:induction false} WholeHolds(b: bytes)
    ensures Holds(b, 0, b)
  {
    assert b[0..|b|] == b;
  }

  /** Where the fields of a batch stand. */
  lemma {:induction false} FieldsStand(crc: Crc, b: Batch)
    requires 9 + |Covered(b)| <= I32_MAX
    ensures var buf := BatchBytes(crc, b);
      && |buf| == 21 + |Covered(b)| && buf[21..] == Covered(b)
      && Holds(buf, 0, Be(b.baseOffset, 8)) && Holds(buf, 8, Be(9 + |Covered(b)|, 4)) && Holds(buf, 12, Be(b.leaderEpoch, 4))
      && Holds(buf, 16, Be(2, 1)) && Holds(buf, 17, Be(crc(Covered(b)), 4)) && Holds(buf, 21, Covered(b))
  {
    hide Be, Covered, Holds;
    var buf := BatchBytes(crc, b);
    var o, n, e, m := Be(b.baseOffset, 8), Be(9 + |Covered(b)|, 4), Be(b.leaderEpoch, 4), Be(2, 1);
    var k, covered := Be(crc(Covered(b)), 4), Covered(b);
    assert buf == o + n + e + m + k + covered;
    WholeHolds(buf);
    HoldsSplit(buf, 0, o + n + e + m + k, covered);
    HoldsSplit(buf, 0, o + n + e + m, k);
    HoldsSplit(buf, 0, o + n + e, m);
    HoldsSplit(buf, 0, o + n, e);
    HoldsSplit(buf, 0, o, n);
  }

  lemma {:induction false} CoveredStands(buf: bytes, pos: nat, b: Batch)
    requires Holds(buf, pos, Covered(b)) && |b.records| <= I32_MAX
    ensures Holds(buf, pos, Be(b.attributes, 2)) && Holds(buf, pos + 2, Be(b.lastOffsetDelta, 4))
    ensures Holds(buf, pos + 6, Be(b.baseTimestamp, 8)) && Holds(buf, pos + 14, Be(b.maxTimestamp, 8))
    ensures Holds(buf, pos + 22, Be(b.producerId, 8)) && Holds(buf, pos + 30, Be(b.producerEpoch, 2))
    ensures Holds(buf, pos + 32, Be(b.baseSequence, 4)) && Holds(buf, pos + 36, Be(|b.records|, 4))
    ensures Holds(buf, pos + 40, Records(b.records)) && |Covered(b)| == 40 + |Records(b.records)|
  {
    hide Be, Holds, Records;
    var a, l, t, m := Be(b.attributes, 2), Be(b.lastOffsetDelta, 4), Be(b.baseTimestamp, 8), Be(b.maxTimestamp, 8);
    var i, e, s, c := Be(b.producerId, 8), Be(b.producerEpoch, 2), Be(b.baseSequence, 4), Be(|b.records|, 4);
    HoldsSplit(buf, pos, a + l + t + m + i + e + s + c, Records(b.records));
    HoldsSplit(buf, pos, a + l + t + m + i + e + s, c);
    BodySplits(buf, pos, a, l, t, m, i, e, s);
  }

  /** A consumer reads every field of every batch that fits its format, and all its records. */
  lemma {:induction false} BatchReadsBack(crc: Crc, b: Batch)
    requires IsCrc(crc) && FitsBatch(b)
    ensures ViewOf(crc, BatchBytes(crc, b)) ==
            Got(View(b.baseOffset, b.leaderEpoch, b.attributes, b.baseOffset + b.lastOffsetDelta, b.baseTimestamp,
                     b.maxTimestamp, b.producerId, b.producerEpoch, b.baseSequence,
                     SeenAll(b.records, b.baseOffset, b.baseTimestamp)), |BatchBytes(crc, b)|)
  {
    hide Be, Covered, BatchBytes, IntAt, UintAt, Fits, Holds, Records, SeenAll, SeenFrom, FitsRecord;
    var buf := BatchBytes(crc, b);
    FieldsStand(crc, b);
    CoveredStands(buf, 21, b);
    Bytewide(2);
    SmallFits(9 + |Covered(b)|);
    SmallFits(|b.records|);
    IntReads(buf, 0, b.baseOffset, 8);
    IntReads(buf, 8, 9 + |Covered(b)|, 4);
    IntReads(buf, 12, b.leaderEpoch, 4);
    IntReads(buf, 16, 2, 1);
    UintReads(buf, 17, crc(Covered(b)), 4);
    IntReads(buf, 21, b.attributes, 2);
    IntReads(buf, 23, b.lastOffsetDelta, 4);
    IntReads(buf, 27, b.baseTimestamp, 8);
    IntReads(buf, 35, b.maxTimestamp, 8);
    IntReads(buf, 43, b.producerId, 8);
    IntReads(buf, 51, b.producerEpoch, 2);
    IntReads(buf, 53, b.baseSequence, 4);
    IntReads(buf, 57, |b.records|, 4);
    SeenFromReads(buf, 61, b.records, b.baseOffset, b.baseTimestamp);
  }

  // ----- What a Fetch answer tells its consumer -----

  /** These values, one after another from this offset on. */
  function Numbered(base: int, values: seq<bytes>): (s: seq<Seen>)
    ensures |s| == |values| && forall i | 0 <= i < |s| :: s[i] == Seen(base + i, 0, None, Some(values[i]))
  {
    seq(|values|, i requires 0 <= i < |values| => Seen(base + i, 0, None, Some(values[i])))
  }

  lemma {:induction false} PlainSeen(values: seq<bytes>, i: nat, base: int)
    requires i <= |values| <= I32_MAX
    ensures SeenAll(PlainRecords(values, i), base, 0) == Numbered(base, values)[i..]
    decreases |values| - i
  {
    if i < |values| {
      PlainSeen(values, i + 1, base);
      PlainUnfold(values, i, base);
      hide SeenAll, Numbered;
      assert Numbered(base, values)[i..] == [Numbered(base, values)[i]] + Numbered(base, values)[i + 1..];
    }
  }

  lemma {:induction false} PlainUnfold(values: seq<bytes>, i: nat, base: int)
    requires i < |values| <= I32_MAX
    ensures SeenAll(PlainRecords(values, i), base, 0) ==
            [Seen(base + i, 0, None, Some(values[i]))] + SeenAll(PlainRecords(values, i + 1), base, 0)
  {
    var one, rest := PlainRecord(i, values[i]), PlainRecords(values, i + 1);
    assert PlainRecords(values, i) == [one] + rest;
    assert ([one] + rest)[1..] == rest;
  }

  lemma {:induction false} RecordsAtLeast(values: seq<bytes>, i: nat)
    requires i <= |values|
    ensures |values| - i <= |Records(PlainRecords(values, i))|
    decreases |values| - i
  {
    hide RecordBytes, Records;
    if i < |values| {
      RecordsUnfold(values, i);
      RecordsAtLeast(values, i + 1);
      NotEmpty(PlainRecord(i, values[i]));
    } else {
      NoRecords();
    }
  }

  lemma {:induction false} NotEmpty(r: Record)
    ensures |RecordBytes(r)| >= 1
  {
  }

  lemma {:induction false} NoRecords()
    ensures Records([]) == []
  {
  }

  /**
   A batch built for these values at this offset, as long as its length field can say: the consumer finds the i-th
   value at offset baseOffset + i, the last offset where the last value is, and no producer identity.
   */
  lemma {:induction false} ConsumerSees(crc: Crc, baseOffset: int, values: seq<bytes>)
    requires IsCrc(crc) && Fits(baseOffset, 8) && |BatchBytes(crc, PlainBatch(baseOffset, values))| <= 12 + I32_MAX
    ensures ViewOf(crc, BatchBytes(crc, PlainBatch(baseOffset, values))) ==
            Got(View(baseOffset, -1, 0, if values == [] then baseOffset else baseOffset + |values| - 1, 0, 0, -1, -1, -1,
                     Numbered(baseOffset, values)), |BatchBytes(crc, PlainBatch(baseOffset, values))|)
  {
    hide FitsBatch, Fits, Be, Records, ViewOf, IsCrc;
    var b := PlainBatch(baseOffset, values);
    RecordsAtLeast(values, 0);
    PlainFits(baseOffset, values);
    BatchReadsBack(crc, b);
    PlainSeen(values, 0, baseOffset);
  }
}
