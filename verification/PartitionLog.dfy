/**
 A partition's log on disk: segment files of checksummed frames, what a scan finds in them and what a read serves.
 A file may end in bytes that are no frame: a write cut short, or corruption.
 */
module PartitionLog {
  import opened Wrappers
  import opened Bytes

  const MAX_RECORD := 67108864

  type Crc = bytes -> nat

  ghost predicate IsCrc(crc: Crc) {
    forall b {:trigger crc(b)} :: crc(b) < Pow256(4)
  }

  // ----- Frames -----

  function Frame(crc: Crc, r: bytes): (f: bytes)
    ensures |f| == |r| + 8
  {
    ToLe(|r|, 4) + r + ToLe(crc(ToLe(|r|, 4) + r), 4)
  }

  function Frames(crc: Crc, rs: seq<bytes>): bytes {
    if rs == [] then [] else Frames(crc, rs[..|rs| - 1]) + Frame(crc, rs[|rs| - 1])
  }

  /** The intact frame at `pos`: its record and the position after it. */
  function FrameAt(crc: Crc, data: bytes, pos: nat): (f: Option<(bytes, nat)>)
    ensures f.Some? ==> f.value.1 == pos + 8 + |f.value.0| <= |data| && |f.value.0| <= MAX_RECORD
  {
    if |data| < pos + 4 then None
    else
      var len := FromLe(data[pos..pos + 4]);
      if len > MAX_RECORD || |data| < pos + 8 + len then None
      else if FromLe(data[pos + 4 + len..pos + 8 + len]) != crc(data[pos..pos + 4 + len]) then None
      else Some((data[pos + 4..pos + 4 + len], pos + 8 + len))
  }

  lemma {:induction false} FrameReads(crc: Crc, data: bytes, pos: nat, r: bytes)
    requires IsCrc(crc) && |r| <= MAX_RECORD && Holds(data, pos, Frame(crc, r))
    ensures FrameAt(crc, data, pos) == Some((r, pos + 8 + |r|))
  {
    hide ToLe, FromLe, Pow256;
    var len := ToLe(|r|, 4);
    var sum := ToLe(crc(len + r), 4);
    HoldsSplit(data, pos, len + r, sum);
    HoldsSplit(data, pos, len, r);
    Widths();
    LeRoundTrip(|r|, 4);
    LeRoundTrip(crc(len + r), 4);
  }

  /**
   A frame damaged anywhere past its length field does not read: always when only its checksum is damaged, and else
   unless the damaged bytes have the checksum of the true ones.
   */
  lemma {:induction false} DamagedUnread(crc: Crc, before: bytes, r: bytes, f: bytes, after: bytes)
    requires IsCrc(crc) && |r| <= MAX_RECORD && |f| == |r| + 8 && f[..4] == Frame(crc, r)[..4] && f != Frame(crc, r)
    ensures var n, read := |r| + 4, FrameAt(crc, before + f + after, |before|);
            && (f[..n] == Frame(crc, r)[..n] ==> read == None)
            && (f[n..] == Frame(crc, r)[n..] ==>
                  f[..n] != Frame(crc, r)[..n] && (read == None || crc(f[..n]) == crc(Frame(crc, r)[..n])))
  {
    hide ToLe, FromLe, Pow256, IsCrc;
    var n, pos, data := |r| + 4, |before|, before + f + after;
    var len := ToLe(|r|, 4);
    assert Frame(crc, r)[..n] == len + r && Frame(crc, r)[n..] == ToLe(crc(len + r), 4);
    assert f == f[..n] + f[n..] && Frame(crc, r) == Frame(crc, r)[..n] + Frame(crc, r)[n..];
    assert data[pos..pos + 4] == f[..4] == len;
    Widths();
    LeRoundTrip(|r|, 4);
    assert data[pos + n..pos + 4 + n] == f[n..] && data[pos..pos + n] == f[..n];
    Bounded(crc, len + r);
    LeRoundTrip(crc(len + r), 4);
    LeInverse(f[n..]);
  }

  lemma {:induction false} Bounded(crc: Crc, b: bytes)
    requires IsCrc(crc)
    ensures crc(b) < Pow256(4)
  {
  }

  ghost predicate Fit(rs: seq<bytes>) {
    forall r <- rs :: |r| <= MAX_RECORD
  }

  function Offset(crc: Crc, rs: seq<bytes>, j: nat): nat
    requires j <= |rs|
  {
    |Frames(crc, rs[..j])|
  }

  lemma {:induction false} OffsetNext(crc: Crc, rs: seq<bytes>, j: nat)
    requires j < |rs|
    ensures Offset(crc, rs, j + 1) == Offset(crc, rs, j) + 8 + |rs[j]|
  {
    assert rs[..j + 1][..j] == rs[..j];
  }

  /** The j-th frame stands where the first j end. */
  lemma {:induction false} FrameHere(crc: Crc, rs: seq<bytes>, j: nat)
    requires j < |rs|
    ensures Holds(Frames(crc, rs), Offset(crc, rs, j), Frame(crc, rs[j]))
    decreases |rs|
  {
    hide Frame;
    var before, last := rs[..|rs| - 1], rs[|rs| - 1];
    if j == |rs| - 1 {
      assert Frames(crc, rs) == Frames(crc, before) + Frame(crc, last);
    } else {
      FrameHere(crc, before, j);
      assert before[..j] == rs[..j];
      Extends(Frames(crc, before), Offset(crc, rs, j), Frame(crc, rs[j]), Frame(crc, last));
    }
  }

  lemma {:induction false} Extends(a: bytes, pos: nat, b: bytes, c: bytes)
    requires Holds(a, pos, b)
    ensures Holds(a + c, pos, b)
  {
    assert (a + c)[pos..pos + |b|] == a[pos..pos + |b|];
  }

  /** What follows these frames does not read as another. */
  ghost predicate Stops(crc: Crc, rs: seq<bytes>, tail: bytes) {
    FrameAt(crc, Frames(crc, rs) + tail, |Frames(crc, rs)|).None?
  }

  lemma {:induction false} FramesRead(crc: Crc, rs: seq<bytes>, tail: bytes, j: nat)
    requires IsCrc(crc) && Fit(rs) && Stops(crc, rs, tail) && j <= |rs|
    ensures j < |rs| ==>
              FrameAt(crc, Frames(crc, rs) + tail, Offset(crc, rs, j)) == Some((rs[j], Offset(crc, rs, j + 1)))
    ensures j == |rs| ==> FrameAt(crc, Frames(crc, rs) + tail, Offset(crc, rs, j)) == None
  {
    hide Frames, FrameAt, IsCrc, Offset, Fit;
    if j < |rs| {
      FrameThere(crc, rs, tail, j);
    } else {
      NoOffset(crc, rs);
    }
  }

  lemma {:induction false} FrameThere(crc: Crc, rs: seq<bytes>, tail: bytes, j: nat)
    requires IsCrc(crc) && Fit(rs) && j < |rs|
    ensures FrameAt(crc, Frames(crc, rs) + tail, Offset(crc, rs, j)) == Some((rs[j], Offset(crc, rs, j + 1)))
  {
    hide Frame, Frames, Holds, FrameAt, IsCrc, Offset;
    var all, pos := Frames(crc, rs), Offset(crc, rs, j);
    FrameHere(crc, rs, j);
    Extends(all, pos, Frame(crc, rs[j]), tail);
    FrameReads(crc, all + tail, pos, rs[j]);
    OffsetNext(crc, rs, j);
  }

  /** Nothing, or any part of a frame, stops a read. */
  lemma {:induction false} TornStops(crc: Crc, rs: seq<bytes>, torn: bytes, r: bytes)
    requires |r| <= MAX_RECORD && torn < Frame(crc, r)
    ensures Stops(crc, rs, torn)
  {
    hide Frames, FrameAt;
    TornUnread(crc, Frames(crc, rs), torn, r);
  }

  lemma {:induction false} TornUnread(crc: Crc, data: bytes, torn: bytes, r: bytes)
    requires |r| <= MAX_RECORD && torn < Frame(crc, r)
    ensures FrameAt(crc, data + torn, |data|) == None
  {
    hide ToLe, FromLe, Pow256;
    var all, len := data + torn, ToLe(|r|, 4);
    if |torn| >= 4 {
      assert all[|data|..|data| + 4] == torn[..4] == Frame(crc, r)[..4] == len;
      Widths();
      LeRoundTrip(|r|, 4);
    }
  }

  lemma {:induction false} NothingStops(crc: Crc, rs: seq<bytes>)
    ensures Stops(crc, rs, [])
  {
    hide Frames;
  }

  /** A frame that reads is the frame of its record. */
  lemma {:induction false} ReadsFrame(crc: Crc, data: bytes, pos: nat)
    requires FrameAt(crc, data, pos).Some?
    ensures var (r, next) := FrameAt(crc, data, pos).value; data[pos..next] == Frame(crc, r)
  {
    hide ToLe, FromLe;
    var (r, next) := FrameAt(crc, data, pos).value;
    var len, sum := data[pos..pos + 4], data[pos + 4 + |r|..next];
    LeInverse(len);
    LeInverse(sum);
    assert len + r == data[pos..pos + 4 + |r|];
    assert len + r + sum == data[pos..next];
    assert Frame(crc, r) == len + r + sum;
  }

  /** How far a file reads as whole frames from `pos` on. */
  function ValidFrom(crc: Crc, data: bytes, pos: nat): (end: nat)
    requires pos <= |data|
    ensures pos <= end <= |data|
    decreases |data| - pos
  {
    var f := FrameAt(crc, data, pos);
    if f.None? then pos else ValidFrom(crc, data, f.value.1)
  }

  /** Any file is whole frames and a tail that is none. */
  lemma {:induction false} Decompose(crc: Crc, data: bytes, before: seq<bytes>) returns (rs: seq<bytes>)
    requires Frames(crc, before) <= data && Fit(before)
    ensures |Frames(crc, rs)| == ValidFrom(crc, data, |Frames(crc, before)|)
    ensures Frames(crc, rs) <= data && Fit(rs) && Stops(crc, rs, data[|Frames(crc, rs)|..])
    decreases |data| - |Frames(crc, before)|
  {
    hide Frame, Frames, FrameAt;
    var pos := |Frames(crc, before)|;
    var f := FrameAt(crc, data, pos);
    assert Frames(crc, before) + data[pos..] == data;
    if f.None? {
      rs := before;
    } else {
      var (r, next) := f.value;
      ReadsFrame(crc, data, pos);
      FramesGrow(crc, before, r);
      assert data[..next] == data[..pos] + data[pos..next];
      rs := Decompose(crc, data, before + [r]);
    }
  }

  lemma {:induction false} ValidIs(crc: Crc, rs: seq<bytes>, tail: bytes, j: nat)
    requires IsCrc(crc) && Fit(rs) && Stops(crc, rs, tail) && j <= |rs|
    ensures Offset(crc, rs, j) <= |Frames(crc, rs)|
    ensures ValidFrom(crc, Frames(crc, rs) + tail, Offset(crc, rs, j)) == |Frames(crc, rs)|
    decreases |rs| - j
  {
    hide Frames, FrameAt, Offset, IsCrc;
    FramesRead(crc, rs, tail, j);
    if j < |rs| {
      ValidIs(crc, rs, tail, j + 1);
      OffsetNext(crc, rs, j);
    } else {
      NoOffset(crc, rs);
    }
  }

  // ----- Segments -----

  datatype Segment = Segment(start: nat, data: bytes)

  /** The offsets of the intact frames from `pos` on, up to the first that is not intact. */
  function ScanFrom(crc: Crc, s: Segment, pos: nat): seq<nat>
    decreases |s.data| - pos
  {
    var f := FrameAt(crc, s.data, pos);
    if f.None? then [] else [s.start + pos] + ScanFrom(crc, s, f.value.1)
  }

  /** A replay from the start of the log: at the end of a segment, or at a bad frame, it goes on with the next. */
  function Scan(crc: Crc, segments: seq<Segment>): seq<nat> {
    if segments == [] then []
    else Scan(crc, segments[..|segments| - 1]) + ScanFrom(crc, segments[|segments| - 1], 0)
  }

  /** What a segment file holds: its records, and what follows them. */
  datatype Part = Part(records: seq<bytes>, tail: bytes)

  type Layout = seq<Part>

  ghost predicate Holding(crc: Crc, s: Segment, p: Part) {
    s.data == Frames(crc, p.records) + p.tail && Fit(p.records) && Stops(crc, p.records, p.tail)
  }

  /** The segments hold these parts, and none starts before the records of an earlier one end. */
  ghost predicate LaidOut(crc: Crc, segments: seq<Segment>, layout: Layout) {
    && |segments| == |layout| >= 1
    && (forall i | 0 <= i < |segments| :: Holding(crc, segments[i], layout[i]))
    && (forall i, j | 0 <= i < j < |segments| :: RecordsEnd(crc, segments[i], layout[i]) <= segments[j].start)
  }

  function RecordsEnd(crc: Crc, s: Segment, p: Part): nat {
    s.start + |Frames(crc, p.records)|
  }

  function Flat(layout: Layout): seq<bytes> {
    if layout == [] then [] else Flat(layout[..|layout| - 1]) + layout[|layout| - 1].records
  }

  /** Where these records begin, in a segment starting at `start`. */
  function Positions(crc: Crc, start: nat, rs: seq<bytes>): (ps: seq<nat>)
    ensures |ps| == |rs| && forall j | 0 <= j < |rs| :: ps[j] == start + Offset(crc, rs, j)
  {
    seq(|rs|, j requires 0 <= j < |rs| => start + Offset(crc, rs, j))
  }

  lemma {:induction false} ScanReads(crc: Crc, s: Segment, p: Part, j: nat)
    requires IsCrc(crc) && Holding(crc, s, p) && j <= |p.records|
    ensures ScanFrom(crc, s, Offset(crc, p.records, j)) == Positions(crc, s.start, p.records)[j..]
    decreases |p.records| - j
  {
    hide Frames, FrameAt, Offset, IsCrc, Stops;
    FramesRead(crc, p.records, p.tail, j);
    if j < |p.records| {
      ScanReads(crc, s, p, j + 1);
    }
  }

  lemma {:induction false} ScanOf(crc: Crc, s: Segment, p: Part)
    requires IsCrc(crc) && Holding(crc, s, p)
    ensures ScanFrom(crc, s, 0) == Positions(crc, s.start, p.records)
  {
    hide IsCrc, Holding, ScanFrom, Positions, Offset, Frames;
    ScanReads(crc, s, p, 0);
    NoOffset(crc, p.records);
  }

  /** The index of a laid-out log. */
  ghost function Index(crc: Crc, segments: seq<Segment>, layout: Layout): seq<nat>
    requires |segments| == |layout|
  {
    if segments == [] then []
    else
      var last := |segments| - 1;
      Index(crc, segments[..last], layout[..last]) + Positions(crc, segments[last].start, layout[last].records)
  }

  /** A scan finds every record of every segment, and stops short at no tail but its own segment's. */
  lemma {:induction false} ScanFindsAll(crc: Crc, segments: seq<Segment>, layout: Layout)
    requires IsCrc(crc) && |segments| == |layout|
    requires forall i | 0 <= i < |segments| :: Holding(crc, segments[i], layout[i])
    ensures Scan(crc, segments) == Index(crc, segments, layout)
    ensures |Index(crc, segments, layout)| == |Flat(layout)|
    decreases |segments|
  {
    hide Holding, Positions, ScanFrom, IsCrc;
    if segments != [] {
      var last := |segments| - 1;
      ScanFindsAll(crc, segments[..last], layout[..last]);
      ScanOf(crc, segments[last], layout[last]);
    }
  }

  lemma {:induction false} NoOffset(crc: Crc, rs: seq<bytes>)
    ensures Offset(crc, rs, 0) == 0 && Offset(crc, rs, |rs|) == |Frames(crc, rs)|
  {
    assert rs[..0] == [] && rs[..|rs|] == rs;
  }

  // ----- Reading -----

  function Total(rs: seq<bytes>): nat {
    if rs == [] then 0 else |rs[0]| + Total(rs[1..])
  }

  /** The frames from `pos` on, until the byte cap is met or no intact frame follows. */
  function ReadFrom(crc: Crc, data: bytes, pos: nat, max: int, total: nat): seq<bytes>
    decreases |data| - pos
  {
    var f := FrameAt(crc, data, pos);
    if f.None? then []
    else
      var (r, next) := f.value;
      [r] + if total + |r| >= max then [] else ReadFrom(crc, data, next, max, total + |r|)
  }

  /** A run from record j: at least one record if there is any, under the cap before its last, stopped by the cap or the end. */
  ghost predicate Serves(rs: seq<bytes>, j: nat, max: int, total: nat, out: seq<bytes>) {
    && j <= |rs| && out <= rs[j..]
    && (j < |rs| ==> out != [])
    && (|out| >= 2 ==> total + Total(out[..|out| - 1]) < max)
    && (total + Total(out) >= max || j + |out| == |rs|)
  }

  lemma {:induction false} ReadServes(crc: Crc, rs: seq<bytes>, tail: bytes, j: nat, max: int, total: nat)
    requires IsCrc(crc) && Fit(rs) && Stops(crc, rs, tail) && j <= |rs|
    ensures Serves(rs, j, max, total, ReadFrom(crc, Frames(crc, rs) + tail, Offset(crc, rs, j), max, total))
    decreases |rs| - j
  {
    hide Frames, FrameAt, Offset, IsCrc, Fit, Serves, Stops;
    FramesRead(crc, rs, tail, j);
    if j == |rs| {
      ServesNone(rs, max, total);
    } else if total + |rs[j]| >= max {
      ServesOne(rs, j, max, total);
      assert [rs[j]] + [] == [rs[j]];
    } else {
      ReadServes(crc, rs, tail, j + 1, max, total + |rs[j]|);
      ServesMore(rs, j, max, total,
                 ReadFrom(crc, Frames(crc, rs) + tail, Offset(crc, rs, j + 1), max, total + |rs[j]|));
    }
  }

  lemma {:induction false} ServesNone(rs: seq<bytes>, max: int, total: nat)
    ensures Serves(rs, |rs|, max, total, [])
  {
  }

  lemma {:induction false} ServesOne(rs: seq<bytes>, j: nat, max: int, total: nat)
    requires j < |rs| && total + |rs[j]| >= max
    ensures Serves(rs, j, max, total, [rs[j]])
  {
    TotalCons(rs[j], []);
  }

  lemma {:induction false} ServesMore(rs: seq<bytes>, j: nat, max: int, total: nat, rest: seq<bytes>)
    requires j < |rs| && total + |rs[j]| < max && Serves(rs, j + 1, max, total + |rs[j]|, rest)
    ensures Serves(rs, j, max, total, [rs[j]] + rest)
  {
    hide Total;
    var out := [rs[j]] + rest;
    TotalCons(rs[j], rest);
    assert rs[j..] == [rs[j]] + rs[j + 1..];
    if |out| >= 2 {
      assert out[..|out| - 1] == [rs[j]] + rest[..|rest| - 1];
      TotalCons(rs[j], rest[..|rest| - 1]);
      if |rest| < 2 {
        assert rest[..|rest| - 1] == [];
        TotalNone();
      }
    }
  }

  lemma {:induction false} TotalCons(r: bytes, rs: seq<bytes>)
    ensures Total([r] + rs) == |r| + Total(rs)
  {
    assert ([r] + rs)[1..] == rs;
  }

  lemma {:induction false} TotalNone()
    ensures Total([]) == 0
  {
  }

  /** Record i of the log is record j of segment s. */
  ghost predicate LiesAt(layout: Layout, i: nat, s: nat, j: nat) {
    s < |layout| && j < |layout[s].records| && i == |Flat(layout[..s])| + j
  }

  lemma {:induction false} Locate(crc: Crc, segments: seq<Segment>, layout: Layout, i: nat) returns (s: nat, j: nat)
    requires |segments| == |layout| && i < |Flat(layout)|
    ensures LiesAt(layout, i, s, j) && |Index(crc, segments, layout)| == |Flat(layout)|
    ensures Index(crc, segments, layout)[i] == segments[s].start + Offset(crc, layout[s].records, j)
    decreases |layout|
  {
    hide Offset, Positions;
    var last := |layout| - 1;
    IndexLength(crc, segments[..last], layout[..last]);
    if i < |Flat(layout[..last])| {
      s, j := Locate(crc, segments[..last], layout[..last], i);
      assert layout[..last][..s] == layout[..s];
    } else {
      s, j := last, i - |Flat(layout[..last])|;
    }
  }

  lemma {:induction false} IndexLength(crc: Crc, segments: seq<Segment>, layout: Layout)
    requires |segments| == |layout|
    ensures |Index(crc, segments, layout)| == |Flat(layout)|
    decreases |layout|
  {
    hide Offset, Positions;
    if layout != [] {
      IndexLength(crc, segments[..|layout| - 1], layout[..|layout| - 1]);
    }
  }

  lemma {:induction false} FlatSegment(layout: Layout, s: nat)
    requires s < |layout|
    ensures var at, rs := |Flat(layout[..s])|, layout[s].records;
            at + |rs| <= |Flat(layout)| && Flat(layout)[at..at + |rs|] == rs
    decreases |layout|
  {
    var last := |layout| - 1;
    if s < last {
      FlatSegment(layout[..last], s);
      assert layout[..last][..s] == layout[..s];
    }
  }

  /** A read of record i onward serves a run of the records of its own segment, from that one on. */
  ghost predicate ServesFrom(layout: Layout, i: nat, max: int, out: seq<bytes>) {
    && i + |out| <= |Flat(layout)| && out == Flat(layout)[i..i + |out|]
    && exists s: nat, j: nat :: LiesAt(layout, i, s, j) && Serves(layout[s].records, j, max, 0, out)
  }

  lemma {:induction false} SegmentServes(layout: Layout, i: nat, s: nat, j: nat, max: int, out: seq<bytes>)
    requires LiesAt(layout, i, s, j) && Serves(layout[s].records, j, max, 0, out)
    ensures ServesFrom(layout, i, max, out)
  {
    hide Total, Flat;
    FlatSegment(layout, s);
    Slices(Flat(layout), |Flat(layout[..s])|, layout[s].records, j, out);
  }

  lemma {:induction false} Slices(all: seq<bytes>, at: nat, part: seq<bytes>, j: nat, out: seq<bytes>)
    requires at + |part| <= |all| && all[at..at + |part|] == part && j <= |part| && out <= part[j..]
    ensures at + j + |out| <= |all| && out == all[at + j..at + j + |out|]
  {
    forall i | 0 <= i < |out| ensures out[i] == all[at + j + i] {
      assert out[i] == part[j..][i] == part[j + i] == all[at..at + |part|][j + i];
    }
  }

  // ----- Where a record lies -----

  function Last<T>(s: seq<T>): T
    requires s != []
  {
    s[|s| - 1]
  }

  /** The last segment that starts at or before this offset, or the first. */
  function SegmentFor(segments: seq<Segment>, start: nat): (i: nat)
    requires segments != []
    ensures i < |segments| && (segments[i].start <= start || i == 0)
    ensures forall k | i < k < |segments| :: segments[k].start > start
  {
    if |segments| == 1 || Last(segments).start <= start then |segments| - 1
    else SegmentFor(segments[..|segments| - 1], start)
  }

  lemma {:induction false} InSegment(crc: Crc, rs: seq<bytes>, j: nat)
    requires j < |rs|
    ensures Offset(crc, rs, j) < |Frames(crc, rs)|
  {
    hide Frame, Frames, Offset;
    FrameHere(crc, rs, j);
  }

  /** The segment a record lies in is the last that starts at or before it. */
  lemma {:induction false} Found(crc: Crc, segments: seq<Segment>, layout: Layout, s: nat, j: nat)
    requires LaidOut(crc, segments, layout) && s < |layout| && j < |layout[s].records|
    ensures SegmentFor(segments, segments[s].start + Offset(crc, layout[s].records, j)) == s
  {
    hide Frames, Offset, Holding, SegmentFor;
    InSegment(crc, layout[s].records, j);
    var start := segments[s].start + Offset(crc, layout[s].records, j);
    forall k | s < k < |segments| ensures segments[k].start > start {
      assert RecordsEnd(crc, segments[s], layout[s]) <= segments[k].start;
    }
  }

  function Monus(a: nat, b: nat): nat {
    if a < b then 0 else a - b
  }

  /** read_sealed_from on these files and this index. */
  function ReadSealed(crc: Crc, segments: seq<Segment>, starts: seq<nat>, offset: nat, max: int): seq<bytes>
    requires segments != []
  {
    if offset >= |starts| then []
    else
      var s := segments[SegmentFor(segments, starts[offset])];
      ReadFrom(crc, s.data, Monus(starts[offset], s.start), max, 0)
  }

  /** With the index a scan gives, a read past the end is empty and any other serves its record's segment. */
  lemma {:induction false} ReadsRun(crc: Crc, segments: seq<Segment>, layout: Layout, offset: nat, max: int)
    requires IsCrc(crc) && LaidOut(crc, segments, layout)
    ensures var out := ReadSealed(crc, segments, Scan(crc, segments), offset, max);
            if offset >= |Flat(layout)| then out == [] else ServesFrom(layout, offset, max, out)
  {
    hide Frames, Scan, Flat, Offset, IsCrc, ReadFrom, ServesFrom, Serves, SegmentFor, Index, Stops, Fit;
    ScanFindsAll(crc, segments, layout);
    if offset < |Flat(layout)| {
      var s, j := Locate(crc, segments, layout, offset);
      Found(crc, segments, layout, s, j);
      assert Holding(crc, segments[s], layout[s]);
      ReadServes(crc, layout[s].records, layout[s].tail, j, max, 0);
      SegmentServes(layout, offset, s, j, max, ReadSealed(crc, segments, Scan(crc, segments), offset, max));
    }
  }

  lemma {:induction false} FramesGrow(crc: Crc, rs: seq<bytes>, r: bytes)
    ensures Frames(crc, rs + [r]) == Frames(crc, rs) + Frame(crc, r)
  {
    hide Frame;
    assert (rs + [r])[..|rs|] == rs;
  }

  lemma {:induction false} FramesNone(crc: Crc)
    ensures Frames(crc, []) == []
  {
  }

  lemma {:induction false} PositionsGrow(crc: Crc, start: nat, rs: seq<bytes>, r: bytes)
    ensures Positions(crc, start, rs + [r]) == Positions(crc, start, rs) + [start + |Frames(crc, rs)|]
  {
    hide Frames;
    forall j | 0 <= j <= |rs| ensures (rs + [r])[..j] == rs[..j] {
    }
    assert rs[..|rs|] == rs;
  }
}
