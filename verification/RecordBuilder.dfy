/** The builder of a Fetch answer's record batch, and the round trip through the parser. */
module RecordBuilder {
  import opened Wrappers
  import opened Bytes
  import opened WireCodec
  import opened RecordFormat
  import opened RecordParser

  /** The records a Fetch answer carries: null keys, no headers, offsets counted from the batch's own. */
  function PlainRecord(i: nat, value: bytes): Record {
    Record(0, 0, Clamp(i), None, Some(value), [])
  }

  function PlainRecords(values: seq<bytes>, i: nat): (rs: seq<Record>)
    requires i <= |values|
    ensures |rs| == |values| - i
    decreases |values| - i
  {
    if i == |values| then [] else [PlainRecord(i, values[i])] + PlainRecords(values, i + 1)
  }

  /** A non-idempotent, uncompressed batch of these values. */
  function PlainBatch(baseOffset: int, values: seq<bytes>): Batch {
    Batch(baseOffset, -1, 0, Clamp(if |values| == 0 then 0 else |values| - 1), 0, 0, -1, -1, -1,
          PlainRecords(values, 0))
  }

  method BuildRecord(i: nat, value: bytes) returns (out: bytes)
    ensures out == RecordBytes(PlainRecord(i, value))
  {
    hide Varint, Be, Fits;
    var r := new Writer();
    SmallFits(0);
    SmallFits(-1);
    SmallFits(Clamp(i));
    SmallFits(Clamp(|value|));
    Narrow();
    r.Int(0, 1);
    r.PutVarlong(0);
    r.PutVarint(Clamp(i));
    r.PutVarint(-1);
    r.PutVarint(Clamp(|value|));
    r.Raw(value);
    r.PutVarint(0);
    var plain := PlainRecord(i, value);
    assert r.buf == RecordBody(plain) by {
      var v := Varint(Clamp(|value|));
      assert r.buf == Be(0, 1) + Varint(0) + Varint(Clamp(i)) + Varint(-1) + v + value + Varint(0);
      assert RecordBody(plain) == Be(0, 1) + Varint(0) + Varint(Clamp(i)) + Varint(-1) + (v + value) + Varint(0);
    }
    var framed := new Writer();
    SmallFits(Clamp(|r.buf|));
    framed.PutVarint(Clamp(|r.buf|));
    framed.Raw(r.buf);
    out := framed.buf;
  }

  method BuildRecords(values: seq<bytes>) returns (out: bytes)
    ensures out == Records(PlainRecords(values, 0))
  {
    hide RecordBytes;
    var recs := new Writer();
    for i := 0 to |values|
      invariant recs.buf + Records(PlainRecords(values, i)) == Records(PlainRecords(values, 0))
    {
      var one := BuildRecord(i, values[i]);
      ghost var before := recs.buf;
      recs.Raw(one);
      RecordsUnfold(values, i);
      assert before + (one + Records(PlainRecords(values, i + 1))) ==
             before + one + Records(PlainRecords(values, i + 1));
    }
    out := recs.buf;
    assert out + Records(PlainRecords(values, |values|)) == out;
  }

  lemma {:induction false} RecordsUnfold(values: seq<bytes>, i: nat)
    requires i < |values|
    ensures Records(PlainRecords(values, i)) ==
            RecordBytes(PlainRecord(i, values[i])) + Records(PlainRecords(values, i + 1))
  {
    hide RecordBytes;
    assert PlainRecords(values, i)[1..] == PlainRecords(values, i + 1);
  }

  method BuildFrame(baseOffset: int, stored: nat, covered: bytes) returns (out: bytes)
    ensures out == Framed(baseOffset, -1, stored, covered)
  {
    hide Be;
    var tail := new Writer();
    tail.Int(-1, 4);
    tail.Int(2, 1);
    tail.Int(stored, 4);
    tail.Raw(covered);
    assert tail.buf == Tail(-1, stored, covered);
    var full := new Writer();
    full.Int(baseOffset, 8);
    full.Int(Clamp(|tail.buf|), 4);
    full.Raw(tail.buf);
    out := full.buf;
  }

  /** build_record_batch. */
  method Build(crc: Crc, baseOffset: int, values: seq<bytes>) returns (out: bytes)
    ensures out == BatchBytes(crc, PlainBatch(baseOffset, values))
  {
    hide Be, Records, Framed;
    var records := BuildRecords(values);
    var covered := BuildCovered(values, records);
    assert covered == Covered(PlainBatch(baseOffset, values));
    out := BuildFrame(baseOffset, crc(covered), covered);
  }

  method BuildCovered(values: seq<bytes>, records: bytes) returns (out: bytes)
    ensures out == Be(0, 2) + Be(Clamp(if |values| == 0 then 0 else |values| - 1), 4) + Be(0, 8) + Be(0, 8) + Be(-1, 8)
                   + Be(-1, 2) + Be(-1, 4) + Be(Clamp(|values|), 4) + records
  {
    hide Be;
    var w := new Writer();
    w.Int(0, 2);
    w.Int(Clamp(if |values| == 0 then 0 else |values| - 1), 4);
    w.Int(0, 8);
    w.Int(0, 8);
    w.Int(-1, 8);
    w.Int(-1, 2);
    w.Int(-1, 4);
    w.Int(Clamp(|values|), 4);
    w.Raw(records);
    out := w.buf;
  }

  lemma {:induction false} ValuesUnfold(r: Record, rs: seq<Record>)
    ensures RecordValues([r] + rs) == Listed(r.value) + RecordValues(rs)
  {
    assert ([r] + rs)[1..] == rs;
  }

  lemma {:induction false} PlainValues(values: seq<bytes>, i: nat)
    requires i <= |values|
    ensures RecordValues(PlainRecords(values, i)) == values[i..]
    decreases |values| - i
  {
    if i < |values| {
      PlainValues(values, i + 1);
      ValuesUnfold(PlainRecord(i, values[i]), PlainRecords(values, i + 1));
      hide RecordValues;
      assert Listed(Some(values[i])) + values[i + 1..] == values[i..];
    }
  }

  /** When the records take no more bytes than a length field can say, each of them fits too. */
  lemma {:induction false} PlainRecordsFit(values: seq<bytes>, i: nat)
    requires i <= |values| && |Records(PlainRecords(values, i))| + i <= I32_MAX
    ensures |values| - i <= |Records(PlainRecords(values, i))|
    ensures forall r <- PlainRecords(values, i) :: FitsRecord(r)
    decreases |values| - i
  {
    hide FitsRecord, RecordBytes, Records, PlainRecord;
    if i < |values| {
      RecordsUnfold(values, i);
      PlainRecordFits(values[i], i);
      PlainRecordsFit(values, i + 1);
      var one, rest := PlainRecord(i, values[i]), PlainRecords(values, i + 1);
      assert forall r <- [one] + rest :: r == one || r in rest;
    }
  }

  lemma {:induction false} PlainRecordFits(value: bytes, i: nat)
    requires |RecordBytes(PlainRecord(i, value))| + i <= I32_MAX
    ensures FitsRecord(PlainRecord(i, value)) && |RecordBytes(PlainRecord(i, value))| >= 1
  {
    hide Varint, Be, Fits;
    SmallFits(i);
    Bytewide(0);
    Narrow();
  }

  lemma {:induction false} PlainFits(baseOffset: int, values: seq<bytes>)
    requires Fits(baseOffset, 8) && 9 + |Covered(PlainBatch(baseOffset, values))| <= I32_MAX
    ensures FitsBatch(PlainBatch(baseOffset, values))
  {
    hide FitsRecord, Records, Fits, Be;
    PlainRecordsFit(values, 0);
    SmallFits(-1);
    SmallFits(0);
    SmallFits(PlainBatch(baseOffset, values).lastOffsetDelta);
    Narrow();
  }

  lemma {:induction false} Narrow()
    ensures Fits(0, 2) && Fits(-1, 2) && Fits(0, 8) && Fits(-1, 8)
  {
    Widths();
    assert Pow256(2) == 65536;
  }

  datatype Part = Part(baseOffset: int, values: seq<bytes>)

  function Plain(parts: seq<Part>): (es: seq<Entry>)
    ensures |es| == |parts|
  {
    seq(|parts|, i requires 0 <= i < |parts| => V2(PlainBatch(parts[i].baseOffset, parts[i].values)))
  }

  function PartValues(parts: seq<Part>): seq<bytes> {
    if parts == [] then [] else parts[0].values + PartValues(parts[1..])
  }

  lemma {:induction false} PlainAllValues(parts: seq<Part>)
    ensures AllValues(Plain(parts)) == PartValues(parts)
    decreases |parts|
  {
    if parts != [] {
      PlainAllValues(parts[1..]);
      assert Plain(parts)[1..] == Plain(parts[1..]);
      PlainValues(parts[0].values, 0);
    }
  }

  /**
   The parser inverts the builder: any run of built batches, end to end, parses to all their values in order and
   claims no producer identity.
   */
  lemma {:induction false} ParseInvertsBuild(crc: Crc, parts: seq<Part>)
    requires IsCrc(crc)
    requires forall p <- parts ::
      Fits(p.baseOffset, 8) && 9 + |Covered(PlainBatch(p.baseOffset, p.values))| <= I32_MAX
    ensures Parse(crc, Blob(crc, Plain(parts))) == Ok(ParsedRecords(PartValues(parts), None))
  {
    hide Covered, FitsBatch, Parse, Fits, IsCrc, Blob, AllValues;
    forall e <- Plain(parts) ensures FitsEntry(e) {
      var i :| 0 <= i < |parts| && e == Plain(parts)[i];
      PlainFits(parts[i].baseOffset, parts[i].values);
    }
    ParsesEverything(crc, Plain(parts));
    PlainAllValues(parts);
  }
}
