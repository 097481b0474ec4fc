/**
 Exactly-once delivery into Postgres: a batch and the stream's watermark are committed in one
 transaction, and the batch is cut back to the part the stored watermark has not covered.

 The database is a table of rows and a table of watermarks.  A row carries the stream that wrote it,
 which the real table does not store, so that the rows of one stream can be named.
 */
module PostgresSink {
  import opened Wrappers
  import opened Bytes

  type Record = bytes
  type Stream = bytes

  datatype Row = Row(stream: Stream, value: Record)

  datatype Db = Db(rows: seq<Row>, marks: map<Stream, int>)

  const I64_MAX: int := 0x7FFF_FFFF_FFFF_FFFF

  /** What the environment does to one commit attempt. */
  datatype Fate =
    | Fine                 // every statement succeeds and the answer arrives
    | FailsAt(step: nat)   // the statement numbered `step` fails, or the process dies there
    | AckLost              // the transaction commits and the answer is lost

  function Mark(db: Db, stream: Stream): Option<int> {
    if stream in db.marks then Some(db.marks[stream]) else None
  }

  function Tagged(stream: Stream, records: seq<Record>): (rows: seq<Row>)
    ensures |rows| == |records|
    ensures forall i :: 0 <= i < |records| ==> rows[i] == Row(stream, records[i])
  {
    seq(|records|, i requires 0 <= i < |records| => Row(stream, records[i]))
  }

  /** How many of a batch ending at `watermark` are already covered by the stored watermark. */
  function Covered(current: Option<int>, watermark: int, count: nat): nat {
    var base := watermark - count;
    if current.Some? && current.value > base then current.value - base else 0
  }

  /** The transaction body: land what the stored watermark has not covered, and advance it. */
  function Landed(db: Db, stream: Stream, watermark: int, records: seq<Record>): Db {
    var current := Mark(db, stream);
    if current.Some? && current.value >= watermark then db
    else
      var already := Covered(current, watermark, |records|);
      var toLand := if already <= |records| then records[already..] else [];
      Db(db.rows + Tagged(stream, toLand), db.marks[stream := watermark])
  }

  predicate HasNul(records: seq<Record>) {
    exists i :: 0 <= i < |records| && 0 in records[i]
  }

  /** The committed database after one attempt, and whether the caller is told of success. */
  function CommitOutcome(db: Db, stream: Stream, watermark: int, records: seq<Record>, fate: Fate): (Db, bool) {
    if HasNul(records) || watermark > I64_MAX then (db, false)
    else match fate
      case Fine => (Landed(db, stream, watermark, records), true)
      case FailsAt(_) => (db, false)
      case AckLost => (Landed(db, stream, watermark, records), false)
  }

  /** A connection: the committed database, and the working copy of an open transaction. */
  class Postgres {
    var committed: Db
    var working: Option<Db>

    constructor (db: Db)
      ensures committed == db && working == None
    {
      committed := db;
      working := None;
    }

    /** The statements between BEGIN and COMMIT; `failing` is the number of the one that fails, if any. */
    method TxnBody(stream: Stream, watermark: int, records: seq<Record>, failing: Option<nat>)
      returns (ok: bool)
      requires working.Some?
      modifies this`working
      ensures working.Some?
      ensures ok <==> failing.None?
      ensures ok ==> working.value == Landed(old(working.value), stream, watermark, records)
    {
      if failing == Some(1) {
        return false; // the advisory lock
      }
      var current := Mark(working.value, stream);
      if failing == Some(2) {
        return false; // reading the watermark
      }
      if current.Some? && current.value >= watermark {
        return failing.None?;
      }
      var base := watermark - |records|;
      var already := if current.Some? && current.value - base > 0 then current.value - base else 0;
      var toLand := if already <= |records| then records[already..] else [];
      if toLand != [] {
        if failing == Some(3) {
          return false; // the COPY
        }
        working := Some(working.value.(rows := working.value.rows + Tagged(stream, toLand)));
      }
      assert toLand == [] ==> working.value.rows + Tagged(stream, toLand) == working.value.rows;
      if failing.Some? {
        return false; // the upsert, or the loss of the connection before it
      }
      working := Some(working.value.(marks := working.value.marks[stream := watermark]));
      return true;
    }

    method CommitAt(stream: Stream, watermark: nat, records: seq<Record>, fate: Fate) returns (ok: bool)
      requires working.None?
      modifies this
      ensures working.None?
      ensures (committed, ok) == CommitOutcome(old(committed), stream, watermark, records, fate)
      ensures ok <==> fate == Fine && watermark <= I64_MAX && forall r <- records :: 0 !in r
      ensures ok || (fate == AckLost && watermark <= I64_MAX && forall r <- records :: 0 !in r) ==>
        Watermark(committed, stream) >= watermark
      ensures fate.FailsAt? || watermark > I64_MAX || (exists r <- records :: 0 in r) ==> committed == old(committed)
    {
      if HasNul(records) || watermark > I64_MAX {
        return false;
      }
      if fate == FailsAt(0) {
        return false; // creating the watermark table, or BEGIN
      }
      working := Some(committed);
      var body := TxnBody(stream, watermark, records, if fate.FailsAt? then Some(fate.step) else None);
      if !body {
        working := None; // ROLLBACK, or the server discarding the transaction
        return false;
      }
      committed, working := working.value, None; // COMMIT
      return fate == Fine;
    }
  }

  /**
   How a batch gets through boarding, the rail and the destination: it fails on the way; the destination takes it, or
   answers it as a duplicate or dead-letters it; and then its acknowledgement succeeds or not.
   */
  datatype Delivery = Fails | Answered(taken: bool, acked: bool)

  /** One route being driven: the records it has handed to the sink so far are counted. */
  class Pipeline {
    const stream: Stream
    var landedTotal: nat
    /** What the destination has taken and the pipeline has not collected. */
    var taken: seq<Record>

    constructor (stream: Stream)
      ensures this.stream == stream && landedTotal == 0 && taken == []
    {
      this.stream := stream;
      landedTotal := 0;
      taken := [];
    }

    /**
     Deliver one batch, collect what the destination has taken and commit that at the cumulative count. An empty batch
     does nothing; one that fails on the way commits and counts nothing.
     */
    method ShipBatch(pg: Postgres, batch: seq<Record>, delivery: Delivery, fate: Fate) returns (ok: bool)
      requires pg.working.None?
      modifies this, pg
      ensures pg.working.None?
      ensures var all := old(taken) + if delivery.Answered? && delivery.taken then batch else [];
        if batch == [] then
          ok && pg.committed == old(pg.committed) && landedTotal == old(landedTotal) && taken == old(taken)
        else if delivery.Fails? || !delivery.acked then
          !ok && pg.committed == old(pg.committed) && landedTotal == old(landedTotal) && taken == all
        else
          && landedTotal == old(landedTotal) + |all| && taken == []
          && (pg.committed, ok) ==
             if all == [] then (old(pg.committed), true)
             else CommitOutcome(old(pg.committed), stream, old(landedTotal) + |all|, all, fate)
    {
      if batch == [] {
        return true;
      }
      assert taken + [] == taken;
      if delivery.Fails? {
        return false;
      }
      if delivery.taken {
        taken := taken + batch;
      }
      if !delivery.acked {
        return false;
      }
      var collected := taken;
      taken := [];
      landedTotal := landedTotal + |collected|;
      if collected == [] {
        return true;
      }
      ok := pg.CommitAt(stream, landedTotal, collected, fate);
    }
  }

  // ----- Runs over a growing source -----

  /** Everything there is: the database, each stream's source so far, and the runs under way. */
  datatype World = World(db: Db, sources: map<Stream, seq<Record>>, runs: map<nat, Run>)

  /** A run in progress: its stream and how many source records it has shipped. */
  datatype Run = Run(stream: Stream, shipped: nat)

  datatype Step =
    | Grow(stream: Stream, more: seq<Record>)      // the source gains records at its end
    | Start(id: nat, stream: Stream)               // a run begins, from the start of the source
    | Ship(id: nat, count: nat, fate: Fate)        // a run ships its next `count` records as one batch
    | Stop(id: nat)                                // a run ends, or dies

  function Source(w: World, stream: Stream): seq<Record> {
    if stream in w.sources then w.sources[stream] else []
  }

  predicate Enabled(w: World, step: Step) {
    match step
    case Grow(_, _) => true
    case Start(id, _) => id !in w.runs
    case Ship(id, count, _) => id in w.runs && w.runs[id].shipped + count <= |Source(w, w.runs[id].stream)|
    case Stop(id) => id in w.runs
  }

  function Next(w: World, step: Step): World
    requires Enabled(w, step)
  {
    match step
    case Grow(stream, more) => w.(sources := w.sources[stream := Source(w, stream) + more])
    case Start(id, stream) => w.(runs := w.runs[id := Run(stream, 0)])
    case Stop(id) => w.(runs := w.runs - {id})
    case Ship(id, count, fate) =>
      var run := w.runs[id];
      var batch := Source(w, run.stream)[run.shipped..run.shipped + count];
      var (db, ok) := if batch == [] then (w.db, true)
                      else CommitOutcome(w.db, run.stream, run.shipped + count, batch, fate);
      w.(db := db, runs := if ok then w.runs[id := Run(run.stream, run.shipped + count)] else w.runs - {id})
  }

  ghost predicate IsRun(worlds: seq<World>, steps: seq<Step>) {
    && |worlds| == |steps| + 1
    && worlds[0] == World(Db([], map[]), map[], map[])
    && forall i :: 0 <= i < |steps| ==> Enabled(worlds[i], steps[i]) && worlds[i + 1] == Next(worlds[i], steps[i])
  }

  /** The records of one stream, in row order. */
  function RowsOf(rows: seq<Row>, stream: Stream): seq<Record> {
    if rows == [] then []
    else
      var init := RowsOf(rows[..|rows| - 1], stream);
      if rows[|rows| - 1].stream == stream then init + [rows[|rows| - 1].value] else init
  }

  function Watermark(db: Db, stream: Stream): int {
    if stream in db.marks then db.marks[stream] else 0
  }

  /** The stream's rows are the first `watermark` records of its source: each once, in order. */
  ghost predicate ExactlyOnce(w: World, stream: Stream) {
    && 0 <= Watermark(w.db, stream) <= |Source(w, stream)|
    && RowsOf(w.db.rows, stream) == Source(w, stream)[..Watermark(w.db, stream)]
  }

  ghost predicate Inv(w: World) {
    && (forall s: Stream {:trigger ExactlyOnce(w, s)} :: ExactlyOnce(w, s))
    && (forall id :: id in w.runs ==> w.runs[id].shipped <= Watermark(w.db, w.runs[id].stream))
  }

  lemma {:induction false} RowsOfTagged(rows: seq<Row>, stream: Stream, records: seq<Record>, s: Stream)
    ensures RowsOf(rows + Tagged(stream, records), s) ==
      if s == stream then RowsOf(rows, s) + records else RowsOf(rows, s)
    decreases |records|
  {
    hide RowsOf;
    if records == [] {
      assert rows + Tagged(stream, records) == rows;
    } else {
      var n := |records| - 1;
      RowsOfTagged(rows, stream, records[..n], s);
      assert rows + Tagged(stream, records) == rows + Tagged(stream, records[..n]) + [Row(stream, records[n])];
      RowsOfLast(rows + Tagged(stream, records[..n]), Row(stream, records[n]), s);
      assert RowsOf(rows, s) + records[..n] + [records[n]] == RowsOf(rows, s) + records;
    }
  }

  lemma {:induction false} RowsOfLast(rows: seq<Row>, row: Row, s: Stream)
    ensures RowsOf(rows + [row], s) == RowsOf(rows, s) + if row.stream == s then [row.value] else []
  {
    assert (rows + [row])[..|rows|] == rows;
  }

  /** Landing the slice of the source that ends at `upto` never repeats or skips a record. */
  lemma {:induction false} LandedExact(w: World, stream: Stream, from: nat, upto: nat, s: Stream)
    requires from < upto <= |Source(w, stream)|
    requires ExactlyOnce(w, s) && ExactlyOnce(w, stream)
    requires from <= Watermark(w.db, stream)
    ensures var db := Landed(w.db, stream, upto, Source(w, stream)[from..upto]);
      && ExactlyOnce(w.(db := db), s)
      && Watermark(w.db, s) <= Watermark(db, s)
      && (s == stream ==> Watermark(db, s) >= upto)
  {
    hide RowsOf;
    var batch, mark := Source(w, stream)[from..upto], Watermark(w.db, stream);
    if mark < upto {
      var already := Covered(Mark(w.db, stream), upto, |batch|);
      assert already == mark - from;
      assert batch[already..] == Source(w, stream)[mark..upto];
      RowsOfTagged(w.db.rows, stream, batch[already..], s);
      assert Source(w, stream)[..mark] + Source(w, stream)[mark..upto] == Source(w, stream)[..upto];
    }
  }

  lemma {:induction false} ShipKeepsInv(w: World, id: nat, count: nat, fate: Fate)
    requires Inv(w) && Enabled(w, Ship(id, count, fate))
    ensures Inv(Next(w, Ship(id, count, fate)))
  {
    hide RowsOf, Landed, ExactlyOnce;
    var run, w' := w.runs[id], Next(w, Ship(id, count, fate));
    var upto := run.shipped + count;
    var batch := Source(w, run.stream)[run.shipped..upto];
    assert ExactlyOnce(w, run.stream);
    if w'.db != w.db {
      forall s: Stream {:trigger ExactlyOnce(w', s)}
        ensures ExactlyOnce(w', s) && Watermark(w.db, s) <= Watermark(w'.db, s) &&
          (s == run.stream ==> Watermark(w'.db, s) >= upto)
      {
        assert ExactlyOnce(w, s);
        LandedExact(w, run.stream, run.shipped, upto, s);
        SameData(w.(db := w'.db), w', s);
      }
      forall i | i in w'.runs ensures w'.runs[i].shipped <= Watermark(w'.db, w'.runs[i].stream) {
        assert ExactlyOnce(w', w'.runs[i].stream);
      }
    } else {
      forall s: Stream {:trigger ExactlyOnce(w', s)} ensures ExactlyOnce(w', s) {
        assert ExactlyOnce(w, s);
        SameData(w, w', s);
      }
      if id in w'.runs && batch != [] && fate == Fine {
        assert w.db == Landed(w.db, run.stream, upto, batch);
        LandedExact(w, run.stream, run.shipped, upto, run.stream);
      }
    }
  }

  /** Nothing in these records, and no count, that the sink must refuse. */
  predicate Acceptable(w: World, run: Run, count: nat)
    requires run.shipped + count <= |Source(w, run.stream)|
  {
    run.shipped + count <= I64_MAX && forall r <- Source(w, run.stream)[run.shipped..run.shipped + count] :: 0 !in r
  }

  /** A batch that nothing prevents lands: the run goes on, and the watermark has reached its end. */
  lemma {:induction false} FineShipLands(w: World, id: nat, count: nat)
    requires Inv(w) && Enabled(w, Ship(id, count, Fine)) && Acceptable(w, w.runs[id], count)
    ensures var v, run := Next(w, Ship(id, count, Fine)), w.runs[id];
      && id in v.runs && v.runs[id] == Run(run.stream, run.shipped + count)
      && Watermark(v.db, run.stream) >= run.shipped + count
  {
    hide Inv, Landed;
    ShipKeepsInv(w, id, count, Fine);
    var v := Next(w, Ship(id, count, Fine));
    assert id in v.runs;
    RunCovered(v, id);
  }

  lemma {:induction false} RunCovered(w: World, id: nat)
    requires Inv(w) && id in w.runs
    ensures w.runs[id].shipped <= Watermark(w.db, w.runs[id].stream)
  {
  }

  lemma {:induction false} SameData(a: World, b: World, s: Stream)
    requires a.db == b.db && Source(a, s) == Source(b, s) && ExactlyOnce(a, s)
    ensures ExactlyOnce(b, s)
  {
  }

  lemma {:induction false} StepKeepsInv(w: World, step: Step)
    requires Inv(w) && Enabled(w, step)
    ensures Inv(Next(w, step))
  {
    hide RowsOf;
    match step
    case Ship(id, count, fate) => ShipKeepsInv(w, id, count, fate);
    case Grow(stream, more) =>
      var w' := Next(w, step);
      forall s: Stream {:trigger ExactlyOnce(w', s)} ensures ExactlyOnce(w', s) {
        assert ExactlyOnce(w, s);
        assert Source(w', s)[..Watermark(w.db, s)] == Source(w, s)[..Watermark(w.db, s)];
      }
    case Start(id, stream) =>
      var w' := Next(w, step);
      assert ExactlyOnce(w, stream);
      forall s: Stream {:trigger ExactlyOnce(w', s)} ensures ExactlyOnce(w', s) {
        assert ExactlyOnce(w, s);
        SameData(w, w', s);
      }
    case Stop(id) =>
      var w' := Next(w, step);
      forall s: Stream {:trigger ExactlyOnce(w', s)} ensures ExactlyOnce(w', s) {
        assert ExactlyOnce(w, s);
        SameData(w, w', s);
      }
  }

  lemma {:induction false} RunInv(worlds: seq<World>, steps: seq<Step>, i: nat)
    requires IsRun(worlds, steps) && i < |worlds|
    ensures Inv(worlds[i])
    decreases i
  {
    if i == 0 {
      forall s: Stream {:trigger ExactlyOnce(worlds[0], s)} ensures ExactlyOnce(worlds[0], s) {
      }
    } else {
      RunInv(worlds, steps, i - 1);
      StepKeepsInv(worlds[i - 1], steps[i - 1]);
    }
  }

  /**
   Any number of runs, one after another or at once, cut into any batches and stopped anywhere: the
   rows of a stream are always its first `watermark` source records, each once and in order.
   */
  lemma {:induction false} AlwaysExactlyOnce(worlds: seq<World>, steps: seq<Step>, i: nat, stream: Stream)
    requires IsRun(worlds, steps) && i < |worlds|
    ensures 0 <= Watermark(worlds[i].db, stream) <= |Source(worlds[i], stream)|
    ensures RowsOf(worlds[i].db.rows, stream) ==
      Source(worlds[i], stream)[..Watermark(worlds[i].db, stream)]
  {
    RunInv(worlds, steps, i);
    assert ExactlyOnce(worlds[i], stream);
  }

  /** What a run has shipped successfully has landed: a run that finishes has landed its whole source. */
  lemma {:induction false} ShippedHasLanded(worlds: seq<World>, steps: seq<Step>, i: nat, id: nat)
    requires IsRun(worlds, steps) && i < |worlds| && id in worlds[i].runs
    ensures var run := worlds[i].runs[id];
      run.shipped <= |Source(worlds[i], run.stream)| &&
      Source(worlds[i], run.stream)[..run.shipped] <= RowsOf(worlds[i].db.rows, run.stream)
  {
    RunInv(worlds, steps, i);
    assert ExactlyOnce(worlds[i], worlds[i].runs[id].stream);
  }

  /** How many records a run ships in these steps. */
  function Shipped(steps: seq<Step>, id: nat): nat {
    if steps == [] then 0
    else
      var last := steps[|steps| - 1];
      Shipped(steps[..|steps| - 1], id) + if last.Ship? && last.id == id then last.count else 0
  }

  /** The run is not stopped, nothing happens to its batches, and the sink has no reason to refuse them. */
  ghost predicate Undisturbed(w: World, step: Step, id: nat)
    requires Enabled(w, step)
  {
    && !(step.Stop? && step.id == id)
    && (step.Ship? && step.id == id ==> step.fate == Fine && Acceptable(w, w.runs[id], step.count))
  }

  lemma {:induction false} UndisturbedRunShips(worlds: seq<World>, steps: seq<Step>, i: nat, n: nat, id: nat)
    requires IsRun(worlds, steps) && i <= n < |worlds| && id in worlds[i].runs
    requires forall j | i <= j < n :: Undisturbed(worlds[j], steps[j], id)
    ensures id in worlds[n].runs && worlds[n].runs[id].stream == worlds[i].runs[id].stream
    ensures worlds[n].runs[id].shipped == worlds[i].runs[id].shipped + Shipped(steps[i..n], id)
    decreases n
  {
    hide Inv, Next, Enabled, Undisturbed;
    if i < n {
      UndisturbedRunShips(worlds, steps, i, n - 1, id);
      RunInv(worlds, steps, n - 1);
      assert steps[i..n][..n - 1 - i] == steps[i..n - 1];
      UndisturbedStep(worlds[n - 1], steps[n - 1], id);
    }
  }

  lemma {:induction false} UndisturbedStep(w: World, step: Step, id: nat)
    requires Inv(w) && Enabled(w, step) && id in w.runs && Undisturbed(w, step, id)
    ensures var v := Next(w, step);
      id in v.runs && v.runs[id].stream == w.runs[id].stream &&
      v.runs[id].shipped == w.runs[id].shipped + if step.Ship? && step.id == id then step.count else 0
  {
    hide Inv, CommitOutcome, Acceptable;
    if step.Ship? && step.id == id {
      FineShipLands(w, id, step.count);
    }
  }

  /**
   Progress: whatever other runs do beside it, a run whose batches meet no failure ships all of them, and has landed
   as much of its source; one that comes to the end has landed it all.
   */
  lemma {:induction false} UndisturbedRunLands(worlds: seq<World>, steps: seq<Step>, i: nat, n: nat, id: nat)
    requires IsRun(worlds, steps) && i <= n < |worlds| && id in worlds[i].runs
    requires forall j | i <= j < n :: Undisturbed(worlds[j], steps[j], id)
    ensures id in worlds[n].runs && worlds[n].runs[id].stream == worlds[i].runs[id].stream
    ensures worlds[n].runs[id].shipped == worlds[i].runs[id].shipped + Shipped(steps[i..n], id)
    ensures var run := worlds[n].runs[id];
      && run.shipped <= |Source(worlds[n], run.stream)|
      && Source(worlds[n], run.stream)[..run.shipped] <= RowsOf(worlds[n].db.rows, run.stream)
      && (run.shipped == |Source(worlds[n], run.stream)| ==>
            RowsOf(worlds[n].db.rows, run.stream) == Source(worlds[n], run.stream))
  {
    hide RowsOf, IsRun, Undisturbed;
    UndisturbedRunShips(worlds, steps, i, n, id);
    ShippedHasLanded(worlds, steps, n, id);
    AlwaysExactlyOnce(worlds, steps, n, worlds[n].runs[id].stream);
  }
}
