/**
 The writer and the index of a partition log: segments roll when full, a batch is synced before its offsets are
 published, and a failed batch is reconciled by a rescan. A write may stop after any number of a frame's bytes.
 */
module PartitionStore {
  import opened Wrappers
  import opened Bytes
  import opened PartitionLog

  /** The segment files, the last one being written; where the writer believes that one starts, and the log ends. */
  datatype Disk = Disk(segments: seq<Segment>, active: nat, end: nat)

  predicate Writable(d: Disk) {
    d.segments != [] && d.active <= d.end
  }

  predicate Full(d: Disk, limit: nat)
    requires Writable(d)
  {
    d.end - d.active >= limit
  }

  function Roll(d: Disk, limit: nat): (e: Disk)
    requires Writable(d)
    ensures Writable(e) && e.end == d.end
  {
    if Full(d, limit) then d.(segments := d.segments + [Segment(d.end, [])], active := d.end) else d
  }

  /** Bytes added to the file being written, wherever its cursor stands: at its end. */
  function Written(d: Disk, b: bytes): (e: Disk)
    requires Writable(d)
    ensures Writable(e) && e.active == d.active && e.end == d.end
  {
    var s := Last(d.segments);
    d.(segments := d.segments[|d.segments| - 1 := Segment(s.start, s.data + b)])
  }

  function AppendFrame(crc: Crc, limit: nat, d: Disk, r: bytes): (e: Disk)
    requires Writable(d)
    ensures Writable(e)
  {
    Written(Roll(d, limit), Frame(crc, r)).(end := d.end + 8 + |r|)
  }

  /** A write that fails after n bytes of the frame: the bytes are in the file, the end is where it was. */
  function AppendTorn(crc: Crc, limit: nat, d: Disk, r: bytes, n: nat): (e: Disk)
    requires Writable(d) && n <= |r| + 8
    ensures Writable(e)
  {
    Written(Roll(d, limit), Frame(crc, r)[..n])
  }

  /**
   How an append fails: its write stops after some bytes of the frame; or, in a full segment, the old file does not
   sync, or the new one does not open, by when the writer has already moved the start it measures fullness from.
   */
  datatype Failing = Tears(bytes: nat) | Unsynced | Unopened

  /** Record `at` of a batch meets a failure. */
  datatype Fault = Fault(at: nat, how: Failing)

  datatype Outcome = Outcome(disk: Disk, offsets: seq<nat>, failed: bool)

  function Cut(n: nat, r: bytes): (m: nat)
    ensures m < |r| + 8
  {
    if n < |r| + 8 then n else |r| + 7
  }

  predicate Strikes(d: Disk, limit: nat, how: Failing)
    requires Writable(d)
  {
    how.Tears? || Full(d, limit)
  }

  function AppendFails(crc: Crc, limit: nat, d: Disk, r: bytes, how: Failing): (e: Disk)
    requires Writable(d)
    ensures Writable(e)
  {
    match how
    case Tears(n) => AppendTorn(crc, limit, d, r, Cut(n, r))
    case Unsynced => d
    case Unopened => d.(active := d.end)
  }

  /** The append loop from record i on, with the offsets so far. */
  function AppendAll(crc: Crc, limit: nat, d: Disk, sealed: seq<bytes>, i: nat, fault: Option<Fault>, offsets: seq<nat>)
    : (o: Outcome)
    requires Writable(d) && i <= |sealed|
    ensures Writable(o.disk)
    decreases |sealed| - i
  {
    if i == |sealed| then Outcome(d, offsets, false)
    else if |sealed[i]| > MAX_RECORD then Outcome(d, offsets, true)
    else if fault.Some? && fault.value.at == i && Strikes(d, limit, fault.value.how) then
      Outcome(AppendFails(crc, limit, d, sealed[i], fault.value.how), offsets, true)
    else AppendAll(crc, limit, AppendFrame(crc, limit, d, sealed[i]), sealed, i + 1, fault, offsets + [d.end])
  }

  /** Recovery on open: the last file is cut where it stops reading as whole frames. */
  function Opened(crc: Crc, files: seq<Segment>): (d: Disk)
    ensures Writable(d)
  {
    if files == [] then Disk([Segment(0, [])], 0, 0)
    else
      var s := Last(files);
      var len := ValidFrom(crc, s.data, 0);
      Disk(files[|files| - 1 := Segment(s.start, s.data[..len])], s.start, s.start + len)
  }

  // ----- The log, in place -----

  class SealedLog {
    const crc: Crc
    const limit: nat
    var segments: seq<Segment>
    var active: nat
    var end: nat
    /** The index: starts[i] is the byte offset of record i. */
    var starts: seq<nat>

    ghost function Files(): Disk
      reads this
    {
      Disk(segments, active, end)
    }

    constructor (crc: Crc, segmentBytes: nat, files: seq<Segment>)
      ensures this.crc == crc && limit == (if segmentBytes < 1024 then 1024 else segmentBytes)
      ensures Files() == Opened(crc, files) && starts == Scan(crc, segments)
    {
      this.crc := crc;
      limit := if segmentBytes < 1024 then 1024 else segmentBytes;
      var found := [Segment(0, [])];
      var first, last := 0, 0;
      if files != [] {
        var s := files[|files| - 1];
        var len := ValidLen(crc, s.data);
        found := files[|files| - 1 := Segment(s.start, s.data[..len])];
        first, last := s.start, s.start + len;
      }
      segments, active, end, starts := found, first, last, [];
      new;
      starts := ScanStarts();
    }

    /** scan_starts. */
    method ScanStarts() returns (found: seq<nat>)
      ensures found == Scan(crc, segments)
    {
      hide FrameAt;
      found := [];
      for i := 0 to |segments|
        invariant found == Scan(crc, segments[..i])
      {
        var s, pos, before := segments[i], 0, found;
        while FrameAt(crc, s.data, pos).Some?
          invariant found + ScanFrom(crc, s, pos) == before + ScanFrom(crc, s, 0)
          decreases |s.data| - pos
        {
          found := found + [s.start + pos];
          pos := FrameAt(crc, s.data, pos).value.1;
        }
        assert segments[..i + 1][..i] == segments[..i];
      }
      assert segments[..|segments|] == segments;
    }

    /** ReplayLog::append; `failing` is how it will fail, if it comes to that. */
    method Append(r: bytes, failing: Option<Failing>) returns (at: Option<nat>)
      requires Writable(Files())
      modifies `segments, `active, `end
      ensures Writable(Files())
      ensures at == if |r| > MAX_RECORD || (failing.Some? && Strikes(old(Files()), limit, failing.value)) then None
                    else Some(old(end))
      ensures Files() == if |r| > MAX_RECORD then old(Files())
                         else if at.None? then AppendFails(crc, limit, old(Files()), r, failing.value)
                         else AppendFrame(crc, limit, old(Files()), r)
    {
      hide Frame;
      if |r| > MAX_RECORD {
        return None;
      }
      if end - active >= limit {
        if failing == Some(Unsynced) {
          return None;
        }
        active := end;
        if failing == Some(Unopened) {
          return None;
        }
        segments := segments + [Segment(end, [])];
      }
      var file := segments[|segments| - 1];
      if failing.Some? && failing.value.Tears? {
        var part := Frame(crc, r)[..Cut(failing.value.bytes, r)];
        segments := segments[|segments| - 1 := Segment(file.start, file.data + part)];
        return None;
      }
      at := Some(end);
      segments := segments[|segments| - 1 := Segment(file.start, file.data + Frame(crc, r))];
      end := end + 8 + |r|;
    }

    /** append_durable: `synced` says whether the fsync succeeded, `rescanned` whether the rescan after a failure did. */
    method AppendDurable(sealed: seq<bytes>, fault: Option<Fault>, synced: bool, rescanned: bool)
      returns (r: Result<nat, ()>)
      requires Writable(Files())
      modifies this
      ensures var o := AppendAll(crc, limit, old(Files()), sealed, 0, fault, []);
              && Files() == o.disk
              && (r.Ok? <==> !o.failed && synced) && (r.Ok? ==> r.value == |old(starts)|)
              && starts == if r.Ok? then old(starts) + o.offsets
                           else if rescanned then Scan(crc, segments) else old(starts)
    {
      hide AppendFrame, AppendFails;
      var base, offsets, failed, i := |starts|, [], false, 0;
      ghost var all := AppendAll(crc, limit, Files(), sealed, 0, fault, []);
      while i < |sealed| && !failed
        invariant 0 <= i <= |sealed| && Writable(Files()) && starts == old(starts)
        invariant !failed ==> AppendAll(crc, limit, Files(), sealed, i, fault, offsets) == all
        invariant failed ==> all == Outcome(Files(), offsets, true)
        decreases |sealed| - i, !failed
      {
        var failing := if fault.Some? && fault.value.at == i then Some(fault.value.how) else None;
        var at := Append(sealed[i], failing);
        if at.None? {
          failed := true;
        } else {
          offsets := offsets + [at.value];
          i := i + 1;
        }
      }
      if !failed && synced {
        starts := starts + offsets;
        return Ok(base);
      }
      if rescanned {
        starts := ScanStarts();
      }
      return Err(());
    }

    /** read_sealed_from. */
    method ReadSealedFrom(offset: nat, max: int) returns (out: seq<bytes>)
      requires segments != []
      ensures out == ReadSealed(crc, segments, starts, offset, max)
    {
      hide ReadFrom, SegmentFor;
      if offset >= |starts| {
        return [];
      }
      var start := starts[offset];
      var i := FindSegment(segments, start);
      out := ReadFrames(crc, segments[i].data, Monus(start, segments[i].start), max);
    }
  }

  /** scan_valid_len. */
  method ValidLen(crc: Crc, data: bytes) returns (pos: nat)
    ensures pos == ValidFrom(crc, data, 0)
  {
    hide FrameAt;
    pos := 0;
    while FrameAt(crc, data, pos).Some?
      invariant pos <= |data| && ValidFrom(crc, data, pos) == ValidFrom(crc, data, 0)
      decreases |data| - pos
    {
      pos := FrameAt(crc, data, pos).value.1;
    }
  }

  method FindSegment(segments: seq<Segment>, start: nat) returns (i: nat)
    requires segments != []
    ensures i == SegmentFor(segments, start)
  {
    i := |segments| - 1;
    assert segments[..i + 1] == segments;
    while i > 0 && segments[i].start > start
      invariant i < |segments| && SegmentFor(segments[..i + 1], start) == SegmentFor(segments, start)
    {
      assert segments[..i + 1][..i] == segments[..i];
      i := i - 1;
    }
  }

  /** A read goes frame by frame, until the cap is met or no intact frame follows. */
  lemma {:induction false} ReadStep(crc: Crc, data: bytes, pos: nat, max: int, total: nat, out: seq<bytes>)
    ensures FrameAt(crc, data, pos).None? ==> ReadFrom(crc, data, pos, max, total) == []
    ensures FrameAt(crc, data, pos).Some? ==>
              var (r, next) := FrameAt(crc, data, pos).value;
              out + ReadFrom(crc, data, pos, max, total) ==
              if total + |r| >= max then out + [r] else out + [r] + ReadFrom(crc, data, next, max, total + |r|)
  {
    hide FrameAt;
  }

  method ReadFrames(crc: Crc, data: bytes, from: nat, max: int) returns (out: seq<bytes>)
    ensures out == ReadFrom(crc, data, from, max, 0)
  {
    hide FrameAt, ReadFrom;
    var pos, total := from, 0;
    out := [];
    while FrameAt(crc, data, pos).Some?
      invariant total >= 0 && out + ReadFrom(crc, data, pos, max, total) == ReadFrom(crc, data, from, max, 0)
      decreases |data| - pos
    {
      var (r, next) := FrameAt(crc, data, pos).value;
      ReadStep(crc, data, pos, max, total, out);
      out := out + [r];
      pos := next;
      total := total + |r|;
      if total >= max {
        return;
      }
    }
    ReadStep(crc, data, pos, max, total, out);
  }

  // ----- Segments -----

  /** A segment takes frames until it has reached the limit; the next frame starts a new one, at the log's end. */
  lemma {:induction false} RollsExactly(crc: Crc, limit: nat, d: Disk, r: bytes)
    requires Writable(d)
    ensures var e := AppendFrame(crc, limit, d, r);
            && e.end == d.end + 8 + |r|
            && (if d.end - d.active >= limit then
                  e.active == d.end && e.segments == d.segments + [Segment(d.end, Frame(crc, r))]
                else
                  && e.active == d.active && |e.segments| == |d.segments|
                  && e.segments[..|e.segments| - 1] == d.segments[..|d.segments| - 1]
                  && Last(e.segments) == Segment(Last(d.segments).start, Last(d.segments).data + Frame(crc, r)))
  {
    hide Frame;
    assert [] + Frame(crc, r) == Frame(crc, r);
    if Full(d, limit) {
      var rolled := d.segments + [Segment(d.end, [])];
      assert rolled[|rolled| - 1 := Segment(d.end, Frame(crc, r))] == d.segments + [Segment(d.end, Frame(crc, r))];
    }
  }

  /** So no segment outgrows the limit by more than a frame, whatever batches are written and fail. */
  lemma {:induction false} SegmentsBounded(crc: Crc, limit: nat, d: Disk, sealed: seq<bytes>, i: nat,
                                           fault: Option<Fault>, offsets: seq<nat>)
    requires Writable(d) && limit >= 1 && i <= |sealed| && d.end - d.active < limit + 8 + MAX_RECORD
    ensures var e := AppendAll(crc, limit, d, sealed, i, fault, offsets).disk; e.end - e.active < limit + 8 + MAX_RECORD
    decreases |sealed| - i
  {
    hide Frame, Written;
    if i < |sealed| && |sealed[i]| <= MAX_RECORD &&
       !(fault.Some? && fault.value.at == i && Strikes(d, limit, fault.value.how)) {
      SegmentsBounded(crc, limit, AppendFrame(crc, limit, d, sealed[i]), sealed, i + 1, fault, offsets + [d.end]);
    }
  }

  // ----- What an append does to the records and to a scan -----

  /**
   The files hold these parts. The writer's end is where the last records end, or past it when frames were written
   behind other bytes.
   */
  ghost predicate OnDisk(crc: Crc, d: Disk, layout: Layout) {
    && LaidOut(crc, d.segments, layout) && Writable(d)
    && RecordsEnd(crc, Last(d.segments), Last(layout)) <= d.end
    && (Last(layout).tail == [] ==> RecordsEnd(crc, Last(d.segments), Last(layout)) == d.end)
  }

  /** The next frame will stand directly after the last one, or in a file of its own. */
  ghost predicate Ready(d: Disk, layout: Layout, limit: nat)
    requires Writable(d) && layout != []
  {
    Last(layout).tail == [] || Full(d, limit)
  }

  lemma {:induction false} ScanReplaced(crc: Crc, segments: seq<Segment>, p: Part, t: Segment, q: Part, more: seq<nat>)
    requires IsCrc(crc) && segments != [] && Holding(crc, Last(segments), p) && Holding(crc, t, q)
    requires Positions(crc, t.start, q.records) == Positions(crc, Last(segments).start, p.records) + more
    ensures Scan(crc, segments[|segments| - 1 := t]) == Scan(crc, segments) + more
  {
    hide ScanFrom, IsCrc, Holding, Positions;
    var last := |segments| - 1;
    ScanOf(crc, segments[last], p);
    ScanOf(crc, t, q);
    assert segments[last := t][..last] == segments[..last];
    assert Scan(crc, segments[..last]) + (ScanFrom(crc, segments[last], 0) + more) ==
           Scan(crc, segments[..last]) + ScanFrom(crc, segments[last], 0) + more;
  }

  lemma {:induction false} FlatReplaced(layout: Layout, q: Part, more: seq<bytes>)
    requires layout != [] && q.records == Last(layout).records + more
    ensures Flat(layout[|layout| - 1 := q]) == Flat(layout) + more
  {
    var last := |layout| - 1;
    assert layout[last := q][..last] == layout[..last];
    assert Flat(layout[..last]) + (layout[last].records + more) == Flat(layout[..last]) + layout[last].records + more;
  }

  lemma {:induction false} LaidOutReplaced(crc: Crc, segments: seq<Segment>, layout: Layout, t: Segment, q: Part)
    requires LaidOut(crc, segments, layout) && Holding(crc, t, q) && t.start == Last(segments).start
    ensures LaidOut(crc, segments[|segments| - 1 := t], layout[|layout| - 1 := q])
  {
    hide Holding, RecordsEnd;
  }

  lemma {:induction false} RollKeeps(crc: Crc, limit: nat, d: Disk, layout: Layout) returns (rolled: Layout)
    requires OnDisk(crc, d, layout) && Full(d, limit) && limit >= 1
    ensures OnDisk(crc, Roll(d, limit), rolled) && Last(rolled).tail == [] && !Full(Roll(d, limit), limit)
    ensures Flat(rolled) == Flat(layout) && Scan(crc, Roll(d, limit).segments) == Scan(crc, d.segments)
  {
    hide Holding, Scan, Flat, Frames;
    var next, none := Segment(d.end, []), Part([], []);
    rolled := layout + [none];
    FramesNone(crc);
    assert Holding(crc, next, none) by { HoldingNone(crc, next); }
    EmptySegment(crc, d.segments, layout, next);
  }

  lemma {:induction false} HoldingNone(crc: Crc, s: Segment)
    requires s.data == []
    ensures Holding(crc, s, Part([], []))
  {
    NothingStops(crc, []);
  }

  lemma {:induction false} EmptySegment(crc: Crc, segments: seq<Segment>, layout: Layout, next: Segment)
    requires next.data == []
    ensures Scan(crc, segments + [next]) == Scan(crc, segments) && Flat(layout + [Part([], [])]) == Flat(layout)
  {
    assert (layout + [Part([], [])])[..|layout|] == layout && (segments + [next])[..|segments|] == segments;
  }

  /** A whole frame after the last one: one more record, found by a scan at the writer's old end. */
  lemma {:induction false} WriteFrame(crc: Crc, d: Disk, layout: Layout, r: bytes) returns (grown: Layout)
    requires IsCrc(crc) && OnDisk(crc, d, layout) && Last(layout).tail == [] && |r| <= MAX_RECORD
    ensures OnDisk(crc, Written(d, Frame(crc, r)).(end := d.end + 8 + |r|), grown) && Last(grown).tail == []
    ensures Flat(grown) == Flat(layout) + [r]
    ensures Scan(crc, Written(d, Frame(crc, r)).segments) == Scan(crc, d.segments) + [d.end]
  {
    hide Scan, Flat, Frames, Frame, IsCrc, Holding, Positions;
    var s, p := Last(d.segments), Last(layout);
    var t, q := Segment(s.start, s.data + Frame(crc, r)), Part(p.records + [r], []);
    FramesGrow(crc, p.records, r);
    HoldingMore(crc, s, p, r);
    grown := layout[|layout| - 1 := q];
    LaidOutReplaced(crc, d.segments, layout, t, q);
    FlatReplaced(layout, q, [r]);
    PositionsGrow(crc, s.start, p.records, r);
    ScanReplaced(crc, d.segments, p, t, q, [d.end]);
  }

  /** Bytes after the last frame that read as no frame: the same records, and the same scan. */
  lemma {:induction false} WriteTail(crc: Crc, d: Disk, layout: Layout, b: bytes) returns (torn: Layout)
    requires IsCrc(crc) && Writable(d) && LaidOut(crc, d.segments, layout)
    requires Stops(crc, Last(layout).records, Last(layout).tail + b)
    ensures LaidOut(crc, Written(d, b).segments, torn)
    ensures torn == layout[|layout| - 1 := Part(Last(layout).records, Last(layout).tail + b)]
    ensures RecordsEnd(crc, Last(Written(d, b).segments), Last(torn)) == RecordsEnd(crc, Last(d.segments), Last(layout))
    ensures Flat(torn) == Flat(layout) && Scan(crc, Written(d, b).segments) == Scan(crc, d.segments)
  {
    hide Scan, Flat, Frames, IsCrc, Stops, Holding, Positions;
    var s, p := Last(d.segments), Last(layout);
    var t, q := Segment(s.start, s.data + b), Part(p.records, p.tail + b);
    HoldingTail(crc, s, p, b);
    torn := layout[|layout| - 1 := q];
    LaidOutReplaced(crc, d.segments, layout, t, q);
    assert p.records + [] == p.records && Flat(layout) + [] == Flat(layout);
    FlatReplaced(layout, q, []);
    assert Positions(crc, s.start, p.records) + [] == Positions(crc, s.start, p.records);
    ScanReplaced(crc, d.segments, p, t, q, []);
    assert Scan(crc, d.segments) + [] == Scan(crc, d.segments);
  }

  lemma {:induction false} HoldingMore(crc: Crc, s: Segment, p: Part, r: bytes)
    requires Holding(crc, s, p) && p.tail == [] && |r| <= MAX_RECORD
    ensures Holding(crc, Segment(s.start, s.data + Frame(crc, r)), Part(p.records + [r], []))
  {
    hide Frames, Frame, Stops;
    FramesGrow(crc, p.records, r);
    NothingStops(crc, p.records + [r]);
    assert Frames(crc, p.records) + [] == Frames(crc, p.records);
  }

  lemma {:induction false} HoldingTail(crc: Crc, s: Segment, p: Part, b: bytes)
    requires Holding(crc, s, p) && Stops(crc, p.records, p.tail + b)
    ensures Holding(crc, Segment(s.start, s.data + b), Part(p.records, p.tail + b))
  {
    hide Frames, Stops;
    assert Frames(crc, p.records) + p.tail + b == Frames(crc, p.records) + (p.tail + b);
  }

  lemma {:induction false} OnDiskWritable(crc: Crc, d: Disk, layout: Layout)
    requires OnDisk(crc, d, layout)
    ensures Writable(d) && layout != []
  {
  }

  /** On a ready disk, an append adds its record, where the index will say it is. */
  lemma {:induction false} AppendKeeps(crc: Crc, limit: nat, d: Disk, layout: Layout, r: bytes) returns (grown: Layout)
    requires IsCrc(crc) && limit >= 1 && OnDisk(crc, d, layout) && Ready(d, layout, limit) && |r| <= MAX_RECORD
    ensures var e := AppendFrame(crc, limit, d, r);
            && OnDisk(crc, e, grown) && Ready(e, grown, limit) && Flat(grown) == Flat(layout) + [r]
            && Scan(crc, e.segments) == Scan(crc, d.segments) + [d.end]
  {
    hide LaidOut, Scan, Flat, Frame, IsCrc, Written;
    if Full(d, limit) {
      var rolled := RollKeeps(crc, limit, d, layout);
      grown := WriteFrame(crc, Roll(d, limit), rolled, r);
    } else {
      grown := WriteFrame(crc, d, layout, r);
    }
  }

  /** On a ready disk, a torn append changes neither the records nor what a scan finds. */
  lemma {:induction false} TornKeeps(crc: Crc, limit: nat, d: Disk, layout: Layout, r: bytes, n: nat)
    returns (torn: Layout)
    requires IsCrc(crc) && limit >= 1 && OnDisk(crc, d, layout) && Ready(d, layout, limit)
    requires |r| <= MAX_RECORD && n < |r| + 8
    ensures var e := AppendTorn(crc, limit, d, r, n);
            && OnDisk(crc, e, torn) && Last(torn).tail == Frame(crc, r)[..n] && Flat(torn) == Flat(layout)
            && Scan(crc, e.segments) == Scan(crc, d.segments) && !Full(e, limit)
  {
    hide LaidOut, Scan, Flat, Frame, IsCrc, Written, Stops, RecordsEnd;
    var e, parts := d, layout;
    if Full(d, limit) {
      parts := RollKeeps(crc, limit, d, layout);
      e := Roll(d, limit);
    }
    OnDiskWritable(crc, e, parts);
    var b := Frame(crc, r)[..n];
    assert [] + b == b;
    TornStops(crc, Last(parts).records, b, r);
    torn := WriteTail(crc, e, parts, b);
  }

  /** On a ready disk, no failure of an append changes the records or what a scan finds. */
  lemma {:induction false} FailKeeps(crc: Crc, limit: nat, d: Disk, layout: Layout, r: bytes, how: Failing)
    returns (after: Layout)
    requires IsCrc(crc) && limit >= 1 && OnDisk(crc, d, layout) && Ready(d, layout, limit) && |r| <= MAX_RECORD
    ensures var e := AppendFails(crc, limit, d, r, how);
            && OnDisk(crc, e, after) && Flat(after) == Flat(layout) && Scan(crc, e.segments) == Scan(crc, d.segments)
            && (how == Tears(0) ==> Ready(e, after, limit))
  {
    hide LaidOut, Scan, Flat, Frame, IsCrc, AppendTorn, RecordsEnd;
    if how.Tears? {
      after := TornKeeps(crc, limit, d, layout, r, Cut(how.bytes, r));
    } else {
      after := layout;
    }
  }

  // ----- Batches -----

  /** Whatever becomes of it, a batch on a ready disk adds the records it gave offsets to, and a scan finds them there. */
  lemma {:induction false} BatchKeeps(crc: Crc, limit: nat, d: Disk, layout: Layout, sealed: seq<bytes>, i: nat,
                                      fault: Option<Fault>, offsets: seq<nat>) returns (after: Layout)
    requires IsCrc(crc) && limit >= 1 && OnDisk(crc, d, layout) && Ready(d, layout, limit) && i <= |sealed|
    ensures var o := AppendAll(crc, limit, d, sealed, i, fault, offsets);
            && offsets <= o.offsets && OnDisk(crc, o.disk, after) && after != []
            && var n := i + |o.offsets| - |offsets|;
               && n <= |sealed| && (o.failed <==> n < |sealed|)
               && Flat(after) == Flat(layout) + sealed[i..n]
               && Scan(crc, o.disk.segments) == Scan(crc, d.segments) + o.offsets[|offsets|..]
               && (!o.failed || fault.None? || fault.value.how == Tears(0) ==> Ready(o.disk, after, limit))
    decreases |sealed| - i
  {
    hide OnDisk, Scan, Flat, IsCrc, AppendFrame, AppendFails;
    OnDiskWritable(crc, d, layout);
    var o := AppendAll(crc, limit, d, sealed, i, fault, offsets);
    if i == |sealed| || |sealed[i]| > MAX_RECORD {
      after := layout;
      NoneAdded(crc, d, layout, sealed, i, offsets);
    } else if fault.Some? && fault.value.at == i && Strikes(d, limit, fault.value.how) {
      after := FailKeeps(crc, limit, d, layout, sealed[i], fault.value.how);
      OnDiskWritable(crc, o.disk, after);
      NoneAdded(crc, d, layout, sealed, i, offsets);
    } else {
      var grown := AppendKeeps(crc, limit, d, layout, sealed[i]);
      after := BatchKeeps(crc, limit, AppendFrame(crc, limit, d, sealed[i]), grown, sealed, i + 1, fault, offsets + [d.end]);
      var n := i + |o.offsets| - |offsets|;
      OneMore(Flat(layout), sealed, i, n);
      OneMore(Scan(crc, d.segments), o.offsets, |offsets|, |o.offsets|);
    }
  }

  lemma {:induction false} OneMore<T>(s: seq<T>, more: seq<T>, i: nat, n: nat)
    requires i < n <= |more|
    ensures s + [more[i]] + more[i + 1..n] == s + more[i..n]
  {
  }

  lemma {:induction false} NoneAdded(crc: Crc, d: Disk, layout: Layout, sealed: seq<bytes>, i: nat, offsets: seq<nat>)
    requires i <= |sealed|
    ensures Flat(layout) + sealed[i..i] == Flat(layout)
    ensures Scan(crc, d.segments) + offsets[|offsets|..] == Scan(crc, d.segments)
  {
  }

  /**
   The index after a batch on a ready disk is what a full rescan finds if and only if the batch succeeded, or the
   rescan after its failure did, or it had added nothing.
   */
  lemma {:induction false} IndexIsRescan(crc: Crc, limit: nat, d: Disk, layout: Layout, sealed: seq<bytes>,
                                         fault: Option<Fault>, synced: bool, rescanned: bool)
    requires IsCrc(crc) && limit >= 1 && OnDisk(crc, d, layout) && Ready(d, layout, limit)
    ensures var o := AppendAll(crc, limit, d, sealed, 0, fault, []);
            var before, rescan := Scan(crc, d.segments), Scan(crc, o.disk.segments);
            var ok := !o.failed && synced;
            var index := if ok then before + o.offsets else if rescanned then rescan else before;
            index == rescan <==> ok || rescanned || o.offsets == []
  {
    hide OnDisk, Scan, IsCrc, AppendAll, Ready;
    OnDiskWritable(crc, d, layout);
    var after := BatchKeeps(crc, limit, d, layout, sealed, 0, fault, []);
  }

  // ----- After a torn write -----

  /** The checksum does not take the bytes after the last record, and any part of what follows them, for a frame. */
  ghost predicate Rejected(crc: Crc, p: Part, sealed: seq<bytes>) {
    forall n | 0 <= n <= |Frames(crc, sealed)| :: Stops(crc, p.records, p.tail + Frames(crc, sealed)[..n])
  }

  lemma {:induction false} FramesBegin(crc: Crc, rs: seq<bytes>, k: nat)
    requires k <= |rs|
    ensures Frames(crc, rs[..k]) <= Frames(crc, rs)
    decreases |rs|
  {
    hide Frame;
    if k < |rs| {
      FramesBegin(crc, rs[..|rs| - 1], k);
      assert rs[..|rs| - 1][..k] == rs[..k];
    } else {
      assert rs[..k] == rs;
    }
  }

  /** So part of the next frame behind those bytes does not read either. */
  lemma {:induction false} BehindTorn(crc: Crc, p: Part, sealed: seq<bytes>, k: nat, n: nat)
    requires k < |sealed| && n <= |sealed[k]| + 8 && Rejected(crc, p, sealed)
    ensures Stops(crc, p.records, p.tail + Frames(crc, sealed[..k]) + Frame(crc, sealed[k])[..n])
  {
    hide Frame, Frames, Stops;
    FramesBegin(crc, sealed, k);
    FrameHere(crc, sealed, k);
    var all, at, f := Frames(crc, sealed), Offset(crc, sealed, k), Frame(crc, sealed[k]);
    assert all[at..at + n] == all[at..at + |f|][..n] == f[..n];
    assert all[..at + n] == Frames(crc, sealed[..k]) + all[at..at + n];
    assert p.tail + all[..at + n] == p.tail + Frames(crc, sealed[..k]) + Frame(crc, sealed[k])[..n];
  }

  lemma {:induction false} FrameBehind(crc: Crc, p: Part, sealed: seq<bytes>, k: nat)
    requires k < |sealed| && Rejected(crc, p, sealed)
    ensures Stops(crc, p.records, p.tail + Frames(crc, sealed[..k]) + Frame(crc, sealed[k]))
    ensures p.tail + Frames(crc, sealed[..k]) + Frame(crc, sealed[k]) == p.tail + Frames(crc, sealed[..k + 1])
  {
    hide Frame, Frames, Stops, Rejected;
    var f := Frame(crc, sealed[k]);
    BehindTorn(crc, p, sealed, k, |f|);
    assert f[..|f|] == f;
    assert sealed[..k + 1] == sealed[..k] + [sealed[k]];
    FramesGrow(crc, sealed[..k], sealed[k]);
    assert p.tail + Frames(crc, sealed[..k]) + f == p.tail + (Frames(crc, sealed[..k]) + f);
  }

  /** The last file holds torn bytes and, behind them, the first k frames of the batch. */
  ghost predicate Behind(crc: Crc, d: Disk, layout: Layout, p: Part, sealed: seq<bytes>, k: nat) {
    && OnDisk(crc, d, layout) && p.tail != [] && k <= |sealed|
    && Last(layout) == Part(p.records, p.tail + Frames(crc, sealed[..k]))
  }

  /** A whole frame written behind torn bytes is not found. */
  lemma {:induction false} FrameLost(crc: Crc, limit: nat, d: Disk, layout: Layout, p: Part, sealed: seq<bytes>, k: nat)
    returns (next: Layout)
    requires IsCrc(crc) && Behind(crc, d, layout, p, sealed, k) && Rejected(crc, p, sealed)
    requires k < |sealed| && !Full(d, limit)
    ensures var e := AppendFrame(crc, limit, d, sealed[k]);
            && Behind(crc, e, next, p, sealed, k + 1) && Flat(next) == Flat(layout)
            && Scan(crc, e.segments) == Scan(crc, d.segments)
  {
    hide LaidOut, Scan, Flat, IsCrc, Frame, Frames, Stops, Written, RecordsEnd, Rejected;
    FrameBehind(crc, p, sealed, k);
    OnDiskWritable(crc, d, layout);
    next := WriteTail(crc, d, layout, Frame(crc, sealed[k]));
  }

  /** Nor is part of one; and the disk is no more ready than before. */
  lemma {:induction false} FailLost(crc: Crc, limit: nat, d: Disk, layout: Layout, p: Part, sealed: seq<bytes>, k: nat,
                                    how: Failing) returns (after: Layout)
    requires IsCrc(crc) && Behind(crc, d, layout, p, sealed, k) && Rejected(crc, p, sealed)
    requires k < |sealed| && !Full(d, limit) && Strikes(d, limit, how)
    ensures var e := AppendFails(crc, limit, d, sealed[k], how);
            && OnDisk(crc, e, after) && after != [] && Flat(after) == Flat(layout)
            && Scan(crc, e.segments) == Scan(crc, d.segments) && !Ready(e, after, limit)
  {
    hide LaidOut, Scan, Flat, IsCrc, Frame, Frames, Stops, Written, RecordsEnd, Rejected;
    var n := Cut(how.bytes, sealed[k]);
    BehindTorn(crc, p, sealed, k, n);
    OnDiskWritable(crc, d, layout);
    after := WriteTail(crc, d, layout, Frame(crc, sealed[k])[..n]);
  }

  /** What a batch does from its k-th record on, the others being behind torn bytes: `lost` of them will be. */
  ghost predicate Lost(crc: Crc, limit: nat, d: Disk, layout: Layout, sealed: seq<bytes>, k: nat, o: Outcome, after: Layout,
                       lost: nat) {
    && OnDisk(crc, o.disk, after) && after != [] && k <= lost <= |o.offsets| <= |sealed|
    && (o.failed <==> |o.offsets| < |sealed|)
    && Flat(after) == Flat(layout) + sealed[lost..|o.offsets|]
    && Scan(crc, o.disk.segments) == Scan(crc, d.segments) + o.offsets[lost..]
    && (!o.failed && lost < |o.offsets| ==> Ready(o.disk, after, limit))
  }

  /** While frames land behind torn bytes, a scan finds none of them; it finds the first in a new file, and the rest. */
  lemma {:induction false} Stuck(crc: Crc, limit: nat, d: Disk, layout: Layout, p: Part, sealed: seq<bytes>, k: nat,
                                 fault: Option<Fault>, offsets: seq<nat>) returns (after: Layout, lost: nat)
    requires IsCrc(crc) && limit >= 1 && Behind(crc, d, layout, p, sealed, k) && Rejected(crc, p, sealed) && |offsets| == k
    ensures var o := AppendAll(crc, limit, d, sealed, k, fault, offsets);
            && Lost(crc, limit, d, layout, sealed, k, o, after, lost)
            && (!Full(d, limit) && |o.offsets| > k ==> lost > k)
            && (!Full(d, limit) && |o.offsets| == k ==> !Ready(o.disk, after, limit))
    decreases |sealed| - k
  {
    hide OnDisk, Scan, Flat, IsCrc, Frames, Stops, AppendFrame, AppendFails, Rejected;
    OnDiskWritable(crc, d, layout);
    if k < |sealed| && Full(d, limit) {
      lost := k;
      after := BatchKeeps(crc, limit, d, layout, sealed, k, fault, offsets);
    } else if k == |sealed| || |sealed[k]| > MAX_RECORD {
      after, lost := layout, k;
      NoneAdded(crc, d, layout, sealed, k, offsets);
    } else if fault.Some? && fault.value.at == k && Strikes(d, limit, fault.value.how) {
      lost := k;
      after := FailLost(crc, limit, d, layout, p, sealed, k, fault.value.how);
      NoneAdded(crc, d, layout, sealed, k, offsets);
    } else {
      var next := FrameLost(crc, limit, d, layout, p, sealed, k);
      var e := AppendFrame(crc, limit, d, sealed[k]);
      after, lost := Stuck(crc, limit, e, next, p, sealed, k + 1, fault, offsets + [d.end]);
    }
  }

  /**
   What any batch does on any disk the writer can leave behind. On a ready disk nothing written is lost; on another
   the first frame written always is, and so is every frame up to the first that starts a new file.
   */
  lemma {:induction false} BatchAnywhere(crc: Crc, limit: nat, d: Disk, layout: Layout, sealed: seq<bytes>,
                                         fault: Option<Fault>) returns (after: Layout, lost: nat)
    requires IsCrc(crc) && limit >= 1 && OnDisk(crc, d, layout)
    requires Last(layout).tail != [] ==> Rejected(crc, Last(layout), sealed)
    ensures var o := AppendAll(crc, limit, d, sealed, 0, fault, []);
            && Lost(crc, limit, d, layout, sealed, 0, o, after, lost)
            && (Ready(d, layout, limit) ==> lost == 0 && (!o.failed ==> Ready(o.disk, after, limit)))
            && (!Ready(d, layout, limit) && o.offsets != [] ==> lost > 0)
            && (!Ready(d, layout, limit) && o.offsets == [] ==> !Ready(o.disk, after, limit))
  {
    hide OnDisk, Scan, Flat, IsCrc, Frames, AppendAll, Rejected;
    OnDiskWritable(crc, d, layout);
    if Ready(d, layout, limit) {
      lost := 0;
      after := BatchKeeps(crc, limit, d, layout, sealed, 0, fault, []);
    } else {
      var p := Last(layout);
      FramesNone(crc);
      assert sealed[..0] == [] && p.tail + [] == p.tail;
      after, lost := Stuck(crc, limit, d, layout, p, sealed, 0, fault, []);
    }
  }

  lemma {:induction false} AllOffsets(crc: Crc, limit: nat, d: Disk, sealed: seq<bytes>, k: nat, offsets: seq<nat>)
    requires Writable(d) && Fit(sealed) && k <= |sealed|
    ensures var o := AppendAll(crc, limit, d, sealed, k, None, offsets);
            !o.failed && |o.offsets| == |offsets| + |sealed| - k
    decreases |sealed| - k
  {
    hide AppendFrame;
    if k < |sealed| {
      AllOffsets(crc, limit, AppendFrame(crc, limit, d, sealed[k]), sealed, k + 1, offsets + [d.end]);
    }
  }

  /**
   The next successful batch leaves the index equal to a rescan if and only if the disk was ready: no other byte
   followed the last record, or frames lost behind such bytes had filled the file, so that the batch starts a new one.
   Exactly then a restart keeps the batch; else it keeps only what comes after the `lost` records.
   */
  lemma {:induction false} NextBatchExact(crc: Crc, limit: nat, d: Disk, layout: Layout, sealed: seq<bytes>)
    returns (kept: Layout, lost: nat)
    requires IsCrc(crc) && limit >= 1 && OnDisk(crc, d, layout)
    requires sealed != [] && Fit(sealed) && (Last(layout).tail != [] ==> Rejected(crc, Last(layout), sealed))
    ensures var o := AppendAll(crc, limit, d, sealed, 0, None, []);
            && !o.failed
            && (Scan(crc, d.segments) + o.offsets == Scan(crc, o.disk.segments) <==> Ready(d, layout, limit))
            && OnDisk(crc, Opened(crc, o.disk.segments), kept) && lost <= |sealed|
            && Flat(kept) == Flat(layout) + sealed[lost..] && (lost == 0 <==> Ready(d, layout, limit))
  {
    hide Scan, IsCrc, OnDisk, Flat, Frames, Rejected, AppendAll, Opened;
    OnDiskWritable(crc, d, layout);
    AllOffsets(crc, limit, d, sealed, 0, []);
    var after;
    after, lost := BatchAnywhere(crc, limit, d, layout, sealed, None);
    var o := AppendAll(crc, limit, d, sealed, 0, None, []);
    assert o.offsets[0..] == o.offsets && sealed[lost..|sealed|] == sealed[lost..];
    kept := ReopenHeals(crc, limit, o.disk, after);
  }

  /** A torn write never leaves the file full, so the batch after it is found exactly when no byte got out. */
  lemma {:induction false} TornThenBatch(crc: Crc, limit: nat, d: Disk, layout: Layout, r: bytes, n: nat,
                                         sealed: seq<bytes>)
    requires IsCrc(crc) && limit >= 1 && OnDisk(crc, d, layout) && Ready(d, layout, limit)
    requires |r| <= MAX_RECORD && n < |r| + 8 && sealed != [] && Fit(sealed)
    requires n > 0 ==> forall rs :: Rejected(crc, Part(rs, Frame(crc, r)[..n]), sealed)
    ensures var e := AppendTorn(crc, limit, d, r, n);
            var o := AppendAll(crc, limit, e, sealed, 0, None, []);
            && !Full(e, limit)
            && (Scan(crc, e.segments) + o.offsets == Scan(crc, o.disk.segments) <==> n == 0)
  {
    hide Scan, IsCrc, OnDisk, Flat, Frame, Rejected, AppendAll, AppendTorn;
    OnDiskWritable(crc, d, layout);
    var torn := TornKeeps(crc, limit, d, layout, r, n);
    var e := AppendTorn(crc, limit, d, r, n);
    OnDiskWritable(crc, e, torn);
    assert n > 0 ==> Rejected(crc, Part(Last(torn).records, Frame(crc, r)[..n]), sealed);
    var kept, lost := NextBatchExact(crc, limit, e, torn, sealed);
  }

  /** Reopening cuts off whatever follows the last record: it keeps what a scan finds, and the disk is ready again. */
  lemma {:induction false} ReopenHeals(crc: Crc, limit: nat, d: Disk, layout: Layout) returns (healed: Layout)
    requires IsCrc(crc) && OnDisk(crc, d, layout)
    ensures OnDisk(crc, Opened(crc, d.segments), healed) && Flat(healed) == Flat(layout)
    ensures Ready(Opened(crc, d.segments), healed, limit)
    ensures Scan(crc, Opened(crc, d.segments).segments) == Scan(crc, d.segments)
  {
    hide Scan, Flat, IsCrc, Frames, Holding, Positions, Opened;
    var s, p := Last(d.segments), Last(layout);
    var t, q := Segment(s.start, Frames(crc, p.records)), Part(p.records, []);
    CutAt(crc, d.segments, p);
    HoldingWhole(crc, s, p);
    healed := layout[|layout| - 1 := q];
    LaidOutReplaced(crc, d.segments, layout, t, q);
    assert p.records + [] == p.records && Flat(layout) + [] == Flat(layout);
    FlatReplaced(layout, q, []);
    assert Positions(crc, s.start, p.records) + [] == Positions(crc, s.start, p.records);
    ScanReplaced(crc, d.segments, p, t, q, []);
    assert Scan(crc, d.segments) + [] == Scan(crc, d.segments);
  }

  /** Recovery cuts the last file exactly after its records. */
  lemma {:induction false} CutAt(crc: Crc, files: seq<Segment>, p: Part)
    requires IsCrc(crc) && files != [] && Holding(crc, Last(files), p)
    ensures Opened(crc, files) ==
            Disk(files[|files| - 1 := Segment(Last(files).start, Frames(crc, p.records))], Last(files).start,
                 RecordsEnd(crc, Last(files), p))
  {
    hide IsCrc, Frames, Stops, ValidFrom;
    NoOffset(crc, p.records);
    ValidIs(crc, p.records, p.tail, 0);
    assert (Frames(crc, p.records) + p.tail)[..|Frames(crc, p.records)|] == Frames(crc, p.records);
  }

  lemma {:induction false} HoldingWhole(crc: Crc, s: Segment, p: Part)
    requires Holding(crc, s, p)
    ensures Holding(crc, Segment(s.start, Frames(crc, p.records)), Part(p.records, []))
  {
    hide Frames, Stops;
    NothingStops(crc, p.records);
    assert Frames(crc, p.records) + [] == Frames(crc, p.records);
  }

  /** Any files whose intact frames do not overlap the next file open as a ready disk, whatever their bytes. */
  lemma {:induction false} OpensAnything(crc: Crc, limit: nat, files: seq<Segment>) returns (layout: Layout)
    requires IsCrc(crc) && files != []
    requires forall i, j | 0 <= i < j < |files| :: files[i].start + ValidFrom(crc, files[i].data, 0) <= files[j].start
    ensures OnDisk(crc, Opened(crc, files), layout) && Ready(Opened(crc, files), layout, limit)
  {
    hide IsCrc, Frames, Holding, ValidFrom, Opened;
    var parts := Parts(crc, files);
    var end := RecordsEnd(crc, Last(files), Last(parts));
    forall i, j | 0 <= i < j < |files| ensures RecordsEnd(crc, files[i], parts[i]) <= files[j].start {
      ValidIsRecords(crc, files[i], parts[i]);
    }
    layout := ReopenHeals(crc, limit, Disk(files, end, end), parts);
  }

  lemma {:induction false} ValidIsRecords(crc: Crc, s: Segment, p: Part)
    requires IsCrc(crc) && Holding(crc, s, p)
    ensures s.start + ValidFrom(crc, s.data, 0) == RecordsEnd(crc, s, p)
  {
    hide IsCrc, Frames, Stops, ValidFrom;
    NoOffset(crc, p.records);
    ValidIs(crc, p.records, p.tail, 0);
  }

  lemma {:induction false} Parts(crc: Crc, files: seq<Segment>) returns (parts: Layout)
    ensures |parts| == |files| && forall i | 0 <= i < |files| :: Holding(crc, files[i], parts[i])
    decreases |files|
  {
    hide Frames, Stops;
    if files == [] {
      parts := [];
    } else {
      var before := Parts(crc, files[..|files| - 1]);
      var data := Last(files).data;
      FramesNone(crc);
      var rs := Decompose(crc, data, []);
      assert data == Frames(crc, rs) + data[|Frames(crc, rs)|..];
      parts := before + [Part(rs, data[|Frames(crc, rs)|..])];
    }
  }

  /**
   "A failed batch never shifts later offsets" fails after a torn write: one byte of a frame is left in the file, the
   rescan rightly finds nothing, and the next batch succeeds behind that byte. The index has its record at offset 0; a
   rescan, and so a reader of that offset, finds none, and a restart cuts it off.
   */
  lemma {:induction false} TornBatchUnindexed(crc: Crc, limit: nat, x: byte)
    requires IsCrc(crc) && limit >= 1024
    ensures var torn := AppendAll(crc, limit, Opened(crc, []), [[x]], 0, Some(Fault(0, Tears(1))), []);
            var next := AppendAll(crc, limit, torn.disk, [[x]], 0, None, []);
            && torn.failed && Scan(crc, torn.disk.segments) == []
            && !next.failed && next.offsets == [0] && Scan(crc, next.disk.segments) == []
            && (forall max: int :: ReadSealed(crc, next.disk.segments, next.offsets, 0, max) == [])
            && Opened(crc, next.disk.segments) == Opened(crc, [])
  {
    hide Frame, FrameAt;
    var r, d := [x], Disk([Segment(0, [])], 0, 0);
    var f := Frame(crc, r);
    TornByte(crc, x);
    var e := Disk([Segment(0, f[..1])], 0, 0);
    assert [] + f[..1] == f[..1];
    assert d.segments[0 := Segment(0, f[..1])] == e.segments;
    assert AppendAll(crc, limit, d, [r], 0, Some(Fault(0, Tears(1))), []) == Outcome(e, [], true);
    var g := Disk([Segment(0, f[..1] + f)], 0, 9);
    assert e.segments[0 := Segment(0, f[..1] + f)] == g.segments;
    assert [] + [e.end] == [0];
    assert AppendAll(crc, limit, e, [r], 0, None, []) == AppendAll(crc, limit, g, [r], 1, None, [0]);
    assert g.segments[0 := Segment(0, (f[..1] + f)[..0])] == d.segments;
    OnlySegment(crc, Segment(0, f[..1] + f));
    OnlySegment(crc, Segment(0, f[..1]));
  }

  /** One byte of a frame reads as no frame, and neither does that byte with a whole frame behind it. */
  lemma {:induction false} TornByte(crc: Crc, x: byte)
    ensures var f := Frame(crc, [x]); FrameAt(crc, f[..1], 0) == None && FrameAt(crc, f[..1] + f, 0) == None
  {
    var f := Frame(crc, [x]);
    assert ToLe(1, 4) == [1, 0, 0, 0] by {
      assert ToLe(0, 1) == [0] && ToLe(0, 2) == [0, 0];
    }
    assert f[..4] == [1, 0, 0, 0];
    assert (f[..1] + f)[0..4] == [1, 1, 0, 0];
    assert FromLe([1, 1, 0, 0]) == 257 by {
      assert [1, 1, 0, 0][1..] == [1, 0, 0] && [1, 0, 0][1..] == [0, 0] && [0, 0][1..] == [0];
      assert FromLe([0, 0]) == 0;
    }
  }

  lemma {:induction false} OnlySegment(crc: Crc, s: Segment)
    ensures Scan(crc, [s]) == ScanFrom(crc, s, 0)
  {
    assert [s][..0] == [];
  }
}
