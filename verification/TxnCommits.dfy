/** What commits and aborts mean for the logs, over every interleaving. */
module TxnCommits {
  import opened Wrappers
  import opened Bytes
  import opened TxnCoordinator
  import opened TxnBroker
  import opened TxnRuns

  // ----- Records enter a log only through their own transaction's commit -----

  /** An EndTxn(commit) of this transaction, answered while its incarnation was the current one. */
  ghost predicate PreparesCommit(w: World, s: Step, tag: Tag) {
    s.Prepare? && s.commit && s.pair == tag.pair && CurrentTag(w, s.pair) == tag &&
    EndCode(Coordination(w), s.tid, s.pair.pid, s.pair.epoch) == NONE && Current(Coordination(w), s.pair)
  }

  lemma {:induction false} PreparedBy(w: World, s: Step, tag: Tag)
    requires Enabled(w, s) && tag in Next(w, s).prepared && tag !in w.prepared
    ensures PreparesCommit(w, s, tag)
  {
    hide After, Issued;
    var c := Coordination(w);
    assert PairOf(c.txns[s.tid]) == s.pair;
  }

  lemma {:induction false} FirstPrepared(ws: seq<World>, steps: seq<Step>, i: nat, tag: Tag) returns (j: nat)
    requires IsRun(ws, steps) && i < |ws| && tag in ws[i].prepared && tag !in ws[0].prepared
    ensures j < i && PreparesCommit(ws[j], steps[j], tag)
  {
    hide Enabled, Next, PreparesCommit;
    if tag in ws[i - 1].prepared {
      j := FirstPrepared(ws, steps, i - 1, tag);
    } else {
      PreparedBy(ws[i - 1], steps[i - 1], tag);
      j := i - 1;
    }
  }

  lemma {:induction false} ReachableInv(ws: seq<World>, steps: seq<Step>, first: int, i: nat)
    requires IsRun(ws, steps) && ws[0] == Start(first) && i < |ws|
    ensures Inv(ws[i])
  {
    hide Inv, IsRun;
    StartInv(first);
    RunInv(ws, steps, i);
  }

  /**
   A transactional record is in a log only if, earlier in the run, its own transaction's EndTxn(commit) was prepared
   while its own (producer id, epoch) was current, even across a re-init between check and buffer.
   */
  lemma {:induction false} OnlyThroughOwnCommit(ws: seq<World>, steps: seq<Step>, first: int, i: nat, p: Part, r: Rec)
    returns (j: nat)
    requires IsRun(ws, steps) && ws[0] == Start(first) && i < |ws|
    requires r in Log(ws[i].store, p) && r.origin.Some?
    ensures j < i && PreparesCommit(ws[j], steps[j], r.origin.value)
  {
    hide IsRun, FlightsKnown, BuffersOwned, InitsAborted, AcceptedKept;
    ReachableInv(ws, steps, first, i);
    j := FirstPrepared(ws, steps, i, r.origin.value);
  }

  /** A transaction whose EndTxn attempts are all aborts leaves nothing in any log. */
  lemma {:induction false} AbortedAddsNothing(ws: seq<World>, steps: seq<Step>, first: int, i: nat, p: Part, tag: Tag)
    requires IsRun(ws, steps) && ws[0] == Start(first) && i < |ws|
    requires forall j | 0 <= j < i ::
      steps[j].Prepare? && steps[j].pair == tag.pair && CurrentTag(ws[j], tag.pair) == tag ==> !steps[j].commit
    ensures forall r <- Log(ws[i].store, p) :: r.origin != Some(tag)
  {
    hide IsRun, Log;
    forall r <- Log(ws[i].store, p) ensures r.origin != Some(tag) {
      if r.origin == Some(tag) {
        var j := OnlyThroughOwnCommit(ws, steps, first, i, p, r);
        assert false;
      }
    }
  }

  lemma {:induction false} StagedBy(w: World, s: Step, e: Settled)
    requires Enabled(w, s) && e in Next(w, s).staged && e !in w.staged
    ensures PreparesCommit(w, s, e.tag) && e.offset in EndOffsets(Coordination(w), s.tid, true)
  {
    hide After, Issued, EndOffsets;
    var c := Coordination(w);
    assert PairOf(c.txns[s.tid]) == s.pair;
    assert e in Tagged(CurrentTag(w, s.pair), EndOffsets(c, s.tid, s.commit));
    AbortStagesNothing(c, s.tid);
  }

  lemma {:induction false} AbortStagesNothing(c: Coord, tid: string)
    ensures EndOffsets(c, tid, false) == []
  {
  }

  lemma {:induction false} FirstStaged(ws: seq<World>, steps: seq<Step>, i: nat, e: Settled) returns (j: nat)
    requires IsRun(ws, steps) && i < |ws| && e in ws[i].staged && e !in ws[0].staged
    ensures j < i && PreparesCommit(ws[j], steps[j], e.tag)
    ensures e.offset in EndOffsets(Coordination(ws[j]), steps[j].tid, true)
  {
    hide Enabled, Next, EndOffsets, Coordination;
    if e in ws[i - 1].staged {
      j := FirstStaged(ws, steps, i - 1, e);
    } else {
      StagedBy(ws[i - 1], steps[i - 1], e);
      j := i - 1;
    }
  }

  /** A staged consumer offset is committed only with its own transaction's commit, prepared while its pair was current. */
  lemma {:induction false} OffsetsOnlyThroughOwnCommit(ws: seq<World>, steps: seq<Step>, first: int, i: nat, e: Settled)
    returns (j: nat)
    requires IsRun(ws, steps) && ws[0] == Start(first) && i < |ws| && e in ws[i].settled
    ensures j < i && PreparesCommit(ws[j], steps[j], e.tag)
    ensures e.offset in EndOffsets(Coordination(ws[j]), steps[j].tid, true)
  {
    hide IsRun, FlightsKnown, BuffersOwned, InitsAborted, AcceptedKept, LogsCommitted, EndOffsets, Coordination;
    ReachableInv(ws, steps, first, i);
    j := FirstStaged(ws, steps, i, e);
  }

  // ----- An answered commit -----

  ghost predicate RunAt(log: seq<Rec>, at: nat, run: seq<Rec>) {
    at + |run| <= |log| && log[at..at + |run|] == run
  }

  /** The offset buffer_txn answered for this record: the index's length then, and its place in the buffer. */
  function Promised(r: Rec): nat {
    r.seen + r.place
  }

  /** The flush of an EndTxn(commit) that is about to be answered. */
  ghost predicate Answers(w: World, s: Step) {
    s.Flush? && Enabled(w, s) && s.ok && w.flights[s.pair].commit
  }

  lemma {:induction false} NoneLanded(w: World, tag: Tag, p: Part)
    requires Inv(w) && tag !in w.attempted
    ensures forall r <- Log(w.store, p) :: r.origin != Some(tag)
  {
    hide FlightsKnown, BuffersOwned, InitsAborted, AcceptedKept;
    assert forall r <- Log(w.store, p) :: p in w.store.logs && r in w.store.logs[p];
  }

  lemma {:induction false} SupersededEmpty(w: World, pair: Pair, p: Part)
    requires Inv(w) && Superseded(w, pair) && pair in w.flights && w.flights[pair].Ending?
    ensures Buffered(w.store, KeyOf(pair, p)) == []
  {
    hide FlightsKnown, LogsCommitted, InitsAborted, AcceptedKept, Superseded, Answered;
    var k := KeyOf(pair, p);
    assert k in w.store.buffers ==> BufferOwned(w, k);
    assert PairOfKey(k) == pair;
  }

  /** A commit's flush, successful or not, that is done with this partition: its buffer is gone. */
  ghost predicate Appends(w: World, s: Step, p: Part) {
    s.Flush? && Enabled(w, s) && w.flights[s.pair].commit && KeyOf(s.pair, p) !in s.after.buffers
  }

  /** How many of the partition's buffered records a flush left behind torn bytes. */
  ghost function LostBy(w: World, s: Step, p: Part): (n: nat)
    requires s.Flush?
    ensures n <= |Buffered(w.store, KeyOf(s.pair, p))|
  {
    Missing(w.store, s.after, p, Buffered(w.store, KeyOf(s.pair, p)))
  }

  /** Such a flush appends the buffer without those; some are lost exactly when the partition's file was torn. */
  lemma {:induction false} AppendedLog(w: World, s: Step, p: Part)
    requires Appends(w, s, p)
    ensures var b, lost := Buffered(w.store, KeyOf(s.pair, p)), LostBy(w, s, p);
            && Log(s.after, p) == Log(w.store, p) + b[lost..]
            && (lost > 0 <==> p in w.store.torn && b != [])
            && Length(s.after, p) == Length(w.store, p) + |b|
  {
    hide Enabled, Missing;
    var b := Buffered(w.store, KeyOf(s.pair, p));
    var f := CommitFate(w, s, p);
    TookIsLanded(w.store, s.after, p, b, f);
    assert b[f.lost..|b|] == b[f.lost..];
  }

  lemma {:induction false} BufferMarks(w: World, pair: Pair, p: Part, i: nat)
    requires Inv(w) && i < |Buffered(w.store, KeyOf(pair, p))|
    ensures var r := Buffered(w.store, KeyOf(pair, p))[i];
            r.origin == Some(CurrentTag(w, pair)) && r.place == i && r.stood <= |Log(w.store, p)|
  {
    hide FlightsKnown, LogsCommitted, InitsAborted, AcceptedKept, BufferOwned;
    var k := KeyOf(pair, p);
    assert BufferedFrom(w, k) && PairOfKey(k) == pair;
  }

  /**
   On a transaction's first flush, the commit answered 0 has put everything it accepted on a partition into that log,
   as one run at the end, exactly when no later incarnation of the producer had run its InitProducerId to the end and
   the partition's file did not end in torn bytes.
   */
  lemma {:induction false} FirstCommitExact(w: World, s: Step, p: Part)
    requires Inv(w) && Answers(w, s) && CurrentTag(w, s.pair) !in w.attempted
    requires Accepted(w, CurrentTag(w, s.pair), p) != []
    ensures !Superseded(w, s.pair) && p !in w.store.torn ==>
              Log(s.after, p) == Log(w.store, p) + Accepted(w, CurrentTag(w, s.pair), p)
    ensures (exists at: nat :: RunAt(Log(s.after, p), at, Accepted(w, CurrentTag(w, s.pair), p))) <==>
            !Superseded(w, s.pair) && p !in w.store.torn
  {
    hide FlightsKnown, BuffersOwned, LogsCommitted, InitsAborted, Committed, Log, Superseded, Missing, RunAt;
    var tag := CurrentTag(w, s.pair);
    var run, lost := Accepted(w, tag, p), LostBy(w, s, p);
    AnswersAppends(w, s, p);
    AppendedLog(w, s, p);
    assert KeptFor(w, s.pair, p);
    NoneLanded(w, tag, p);
    AcceptedTagged(w, tag, p);
    if Superseded(w, s.pair) {
      SupersededEmpty(w, s.pair, p);
      forall at: nat ensures !RunAt(Log(s.after, p), at, run) {
        NotTagged(Log(s.after, p), at, run, tag);
      }
    } else if p in w.store.torn {
      forall i | 0 <= i < |run| ensures run[i].place == i {
        BufferMarks(w, s.pair, p, i);
      }
      forall at: nat ensures !RunAt(Log(s.after, p), at, run) {
        LostNoRun(Log(w.store, p), at, run, lost, tag);
      }
    } else {
      assert RunAt(Log(s.after, p), |Log(w.store, p)|, run) by { EndsInRun(Log(w.store, p), run); }
    }
  }

  lemma {:induction false} EndsInRun(log: seq<Rec>, run: seq<Rec>)
    ensures RunAt(log + run[0..], |log|, run)
  {
    assert run[0..] == run;
  }

  /** Nothing but the end of a run does not hold the run. */
  lemma {:induction false} LostNoRun(log: seq<Rec>, at: nat, run: seq<Rec>, lost: nat, tag: Tag)
    requires 0 < lost <= |run| && (forall r <- run :: r.origin == Some(tag)) && (forall r <- log :: r.origin != Some(tag))
    requires forall i | 0 <= i < |run| :: run[i].place == i
    ensures !RunAt(log + run[lost..], at, run)
  {
    var all := log + run[lost..];
    assert run[0] in run && run[0] !in log;
    assert at + |run| <= |all| ==> all[at..at + |run|][0] == all[at];
  }

  lemma {:induction false} AcceptedTagged(w: World, tag: Tag, p: Part)
    requires Inv(w)
    ensures forall r <- Accepted(w, tag, p) :: r.origin == Some(tag)
  {
    hide FlightsKnown, BuffersOwned, LogsCommitted, InitsAborted, KeptFor;
  }

  lemma {:induction false} NotTagged(log: seq<Rec>, at: nat, run: seq<Rec>, tag: Tag)
    requires run != [] && (forall r <- run :: r.origin == Some(tag)) && (forall r <- log :: r.origin != Some(tag))
    ensures !RunAt(log, at, run)
  {
    assert run[0] in run && run[0] !in log;
    assert forall r | at + |run| <= |log| && r in log[at..at + |run|] :: r in log;
  }

  /**
   Whichever attempt appends it, a record that is not lost lands past the offset it was promised by what its log has
   gained since it was buffered, less the records lost before it and less what the index then counted too many. In a
   partition whose index agreed with its log then and whose file is not torn now, the promise is kept exactly when the
   log has gained nothing.
   */
  lemma {:induction false} LandsWherePromised(w: World, s: Step, p: Part, i: nat)
    requires Inv(w) && Appends(w, s, p) && LostBy(w, s, p) <= i < |Buffered(w.store, KeyOf(s.pair, p))|
    ensures var r := Buffered(w.store, KeyOf(s.pair, p))[i];
            var lost := LostBy(w, s, p);
            var at := |Log(w.store, p)| + i - lost;
            && 0 <= at < |Log(s.after, p)| && Log(s.after, p)[at] == r && r.stood <= |Log(w.store, p)|
            && at - Promised(r) == (|Log(w.store, p)| - r.stood) - lost - (r.seen - r.stood)
            && (r.seen == r.stood && p !in w.store.torn ==> (at == Promised(r) <==> |Log(w.store, p)| == r.stood))
            && (lost > 0 <==> p in w.store.torn)
  {
    hide Inv, Enabled, Log, Buffered, Missing;
    AppendedLog(w, s, p);
    BufferMarks(w, s.pair, p, i);
  }

  // ----- Retries -----

  ghost predicate LandedSince(w: World, p: Part, from: nat, run: seq<Rec>) {
    exists at: nat :: from <= at && RunAt(Log(w.store, p), at, run)
  }

  lemma {:induction false} LogsGrow(w: World, s: Step, p: Part)
    requires Enabled(w, s)
    ensures Log(w.store, p) <= Log(Next(w, s).store, p)
  {
    if s.Flush? {
      FlushGrows(w, s, p);
    } else if s.PlainProduce? {
      PlainGrows(w, s, p);
    }
  }

  lemma {:induction false} SupersededStays(w: World, s: Step, pair: Pair)
    requires Enabled(w, s) && Superseded(w, pair)
    ensures Superseded(Next(w, s), pair)
  {
    var q :| q in w.aborted && q.pid == pair.pid && q.epoch > pair.epoch;
    assert q in Next(w, s).aborted;
  }

  /** The incarnation itself neither buffers more nor ends the transaction with an abort. */
  ghost predicate Retrying(w: World, s: Step, pair: Pair)
    requires Enabled(w, s)
  {
    && (s.BufferTxn? ==> s.pair != pair)
    && (s.Flush? && s.pair == pair ==> w.flights[pair].commit)
  }

  /** While no later incarnation supersedes it, a retried commit's buffer waits, or its own flush appends it whole. */
  lemma {:induction false} BufferWaits(w: World, s: Step, pair: Pair, p: Part)
    requires Inv(w) && Enabled(w, s) && Retrying(w, s, pair) && !Superseded(Next(w, s), pair)
    requires KeyOf(pair, p) in w.store.buffers
    ensures var k, v := KeyOf(pair, p), Next(w, s).store;
            || (k in v.buffers && v.buffers[k] == w.store.buffers[k])
            || (s.Flush? && s.pair == pair && Appends(w, s, p))
  {
    hide LogsCommitted, AcceptedKept, BufferedFrom, After, Issued;
    var k := KeyOf(pair, p);
    assert BufferOwned(w, k) && PairOfKey(k) == pair;
    if Superseded(w, pair) {
      SupersededStays(w, s, pair);
    }
    match s
    case RunAbort(q) =>
      AbortDrops(w.store, q, k);
      assert q in Next(w, s).aborted;
    case Flush(q, ok, after) =>
      FlushOfOther(w, s, pair, p);
    case _ =>
  }

  lemma {:induction false} FlushOfOther(w: World, s: Step, pair: Pair, p: Part)
    requires Inv(w) && s.Flush? && Enabled(w, s) && !Superseded(w, pair)
    requires s.pair == pair ==> w.flights[pair].commit
    requires KeyOf(pair, p) in w.store.buffers
    ensures var k := KeyOf(pair, p);
            || (k in s.after.buffers && s.after.buffers[k] == w.store.buffers[k])
            || (s.pair == pair && Appends(w, s, p))
  {
    hide LogsCommitted, AcceptedKept, BuffersOwned, After, Issued, Committed, CommitFailed, Abort;
    var k := KeyOf(pair, p);
    FlushKeepsOrDrops(w, s, k);
    assert s.pair in w.aborted;
  }

  /** Step m is a commit's flush of this incarnation that is done with the run: all of it but what was lost is in p's log. */
  ghost predicate LandsAt(ws: seq<World>, steps: seq<Step>, m: nat, pair: Pair, p: Part, run: seq<Rec>) {
    && m < |steps| && m + 1 < |ws| && steps[m].Flush? && steps[m].pair == pair && Appends(ws[m], steps[m], p)
    && Buffered(ws[m].store, KeyOf(pair, p)) == run
    && Log(ws[m + 1].store, p) == Log(ws[m].store, p) + run[LostBy(ws[m], steps[m], p)..]
    && (LostBy(ws[m], steps[m], p) > 0 <==> p in ws[m].store.torn && run != [])
    && KeyOf(pair, p) !in ws[m + 1].store.buffers
  }

  lemma {:induction false} RetriesWait(ws: seq<World>, steps: seq<Step>, i: nat, pair: Pair, p: Part) returns (m: nat)
    requires IsRun(ws, steps) && Inv(ws[0]) && i < |ws| && !Superseded(ws[i], pair)
    requires forall j | 0 <= j < i :: Retrying(ws[j], steps[j], pair)
    requires KeyOf(pair, p) in ws[0].store.buffers
    ensures var run, k := ws[0].store.buffers[KeyOf(pair, p)], KeyOf(pair, p);
            || (m < i && LandsAt(ws, steps, m, pair, p, run))
            || (k in ws[i].store.buffers && ws[i].store.buffers[k] == run)
    decreases i
  {
    hide Inv, Enabled, Next, Log, Superseded, Retrying, Appends;
    m := 0;
    if i > 0 {
      var w, s, k := ws[i - 1], steps[i - 1], KeyOf(pair, p);
      if Superseded(w, pair) {
        SupersededStays(w, s, pair);
      }
      m := RetriesWait(ws, steps, i - 1, pair, p);
      if !(m < i - 1 && LandsAt(ws, steps, m, pair, p, ws[0].store.buffers[k])) {
        RunInv(ws, steps, i - 1);
        BufferWaits(w, s, pair, p);
        if s.Flush? && s.pair == pair && Appends(w, s, p) {
          AppendedLog(w, s, p);
          AppendsStores(w, s, p);
          assert Buffered(w.store, k) == ws[0].store.buffers[k];
          m := i - 1;
        }
      }
    }
  }

  lemma {:induction false} AppendsStores(w: World, s: Step, p: Part)
    requires Appends(w, s, p)
    ensures s.Flush? && Enabled(w, s) && Next(w, s).store == s.after && KeyOf(s.pair, p) !in s.after.buffers
  {
  }

  lemma {:induction false} LogsGrowOn(ws: seq<World>, steps: seq<Step>, i: nat, j: nat, p: Part)
    requires IsRun(ws, steps) && i <= j < |ws|
    ensures Log(ws[i].store, p) <= Log(ws[j].store, p)
    decreases j
  {
    hide Enabled, Next, Log;
    if i < j {
      LogsGrowOn(ws, steps, i, j - 1, p);
      LogsGrow(ws[j - 1], steps[j - 1], p);
    }
  }

  /** A commit answered while no later incarnation has superseded it appended the run, now or in an earlier attempt. */
  lemma {:induction false} UnsupersededLands(ws: seq<World>, steps: seq<Step>, n: nat, p: Part) returns (m: nat)
    requires IsRun(ws, steps) && Inv(ws[0]) && n < |steps| && Answers(ws[n], steps[n])
    requires forall j | 0 <= j < n :: Retrying(ws[j], steps[j], steps[n].pair)
    requires KeyOf(steps[n].pair, p) in ws[0].store.buffers && !Superseded(ws[n], steps[n].pair)
    ensures m <= n && LandsAt(ws, steps, m, steps[n].pair, p, ws[0].store.buffers[KeyOf(steps[n].pair, p)])
  {
    hide Inv, Next, Log, Superseded, Retrying, Appends;
    var w, s := ws[n], steps[n];
    m := RetriesWait(ws, steps, n, s.pair, p);
    if !(m < n && LandsAt(ws, steps, m, s.pair, p, ws[0].store.buffers[KeyOf(s.pair, p)])) {
      AnswersAppends(w, s, p);
      AppendedLog(w, s, p);
      AppendsStores(w, s, p);
      m := n;
    }
  }

  lemma {:induction false} AnswersAppends(w: World, s: Step, p: Part)
    requires Answers(w, s)
    ensures Appends(w, s, p)
  {
    FlushKeepsOrDrops(w, s, KeyOf(s.pair, p));
  }

  /** Where what has landed stands in the log for good, and how far that is from what was promised. */
  lemma {:induction false} LandedFacts(ws: seq<World>, steps: seq<Step>, m: nat, n: nat, pair: Pair, p: Part,
                                       run: seq<Rec>)
    requires IsRun(ws, steps) && Inv(ws[0]) && m <= n < |steps| && LandsAt(ws, steps, m, pair, p, run)
    ensures var at, lost := |Log(ws[m].store, p)|, LostBy(ws[m], steps[m], p);
            && |Log(ws[0].store, p)| <= at && RunAt(Log(ws[n + 1].store, p), at, run[lost..])
            && Log(ws[m + 1].store, p) <= Log(ws[n + 1].store, p)
            && (forall i | 0 <= i < |run| :: run[i].stood <= at && run[i].place == i && run[i].origin.Some? &&
                                             run[i].origin.value.pair == pair)
  {
    hide Inv, Next, Log, Enabled, Appends, LostBy;
    var at := |Log(ws[m].store, p)|;
    RunInv(ws, steps, m);
    LogsGrowOn(ws, steps, 0, m, p);
    LogsGrowOn(ws, steps, m + 1, n + 1, p);
    assert Log(ws[n + 1].store, p)[..|Log(ws[m + 1].store, p)|] == Log(ws[m + 1].store, p);
    forall i | 0 <= i < |run|
      ensures run[i].stood <= at && run[i].place == i && run[i].origin == Some(CurrentTag(ws[m], pair))
    {
      BufferMarks(ws[m], pair, p, i);
    }
  }

  /** From here on the log gains no record of this incarnation. */
  ghost predicate NoneSince(log: seq<Rec>, from: nat, pair: Pair) {
    forall i | from <= i < |log| :: log[i].origin.Some? ==> log[i].origin.value.pair != pair
  }

  lemma {:induction false} AddsNone(w: World, s: Step, pair: Pair, p: Part)
    requires Inv(w) && Enabled(w, s) && KeyOf(pair, p) !in w.store.buffers && (s.BufferTxn? ==> s.pair != pair)
    ensures var v := Next(w, s); KeyOf(pair, p) !in v.store.buffers && NoneSince(Log(v.store, p), |Log(w.store, p)|, pair)
  {
    hide Inv, Enabled, Next, Log;
    if s.Flush? {
      FlushGrows(w, s, p);
      FlushStores(w, s);
      FlushKeepsOrDrops(w, s, KeyOf(pair, p));
      BufferOrigins(w, s.pair, p);
    } else if s.PlainProduce? {
      PlainGrows(w, s, p);
    } else {
      QuietStep(w, s, pair, p);
    }
  }

  lemma {:induction false} QuietStep(w: World, s: Step, pair: Pair, p: Part)
    requires Enabled(w, s) && !s.Flush? && !s.PlainProduce? && (s.BufferTxn? ==> s.pair != pair)
    ensures Log(Next(w, s).store, p) == Log(w.store, p)
    ensures KeyOf(pair, p) !in w.store.buffers ==> KeyOf(pair, p) !in Next(w, s).store.buffers
  {
    hide Coordination, ProduceCheck, EndCode, EndOffsets, InitTxn;
  }

  lemma {:induction false} BufferOrigins(w: World, pair: Pair, p: Part)
    requires Inv(w)
    ensures forall r <- Buffered(w.store, KeyOf(pair, p)) :: r.origin == Some(CurrentTag(w, pair))
  {
    hide Inv;
    var b := Buffered(w.store, KeyOf(pair, p));
    forall r <- b ensures r.origin == Some(CurrentTag(w, pair)) {
      var i :| 0 <= i < |b| && b[i] == r;
      BufferMarks(w, pair, p, i);
    }
  }

  lemma {:induction false} NoneAdded(ws: seq<World>, steps: seq<Step>, i: nat, j: nat, pair: Pair, p: Part)
    requires IsRun(ws, steps) && Inv(ws[0]) && i <= j < |ws| && KeyOf(pair, p) !in ws[i].store.buffers
    requires forall h | i <= h < j :: steps[h].BufferTxn? ==> steps[h].pair != pair
    ensures KeyOf(pair, p) !in ws[j].store.buffers && Log(ws[i].store, p) <= Log(ws[j].store, p)
    ensures NoneSince(Log(ws[j].store, p), |Log(ws[i].store, p)|, pair)
    decreases j
  {
    hide Inv, Enabled, Next, Log;
    if i < j {
      NoneAdded(ws, steps, i, j - 1, pair, p);
      RunInv(ws, steps, j - 1);
      AddsNone(ws[j - 1], steps[j - 1], pair, p);
      LogsGrow(ws[j - 1], steps[j - 1], p);
    }
  }

  /** The records of a run: one incarnation's, each with its place. */
  ghost predicate IsBuffer(run: seq<Rec>, pair: Pair) {
    forall i | 0 <= i < |run| :: run[i].place == i && run[i].origin.Some? && run[i].origin.value.pair == pair
  }

  /** A run that is in the log was in it before the log gained only others' records. */
  lemma {:induction false} FoundBefore(log: seq<Rec>, from: nat, at: nat, run: seq<Rec>, pair: Pair)
    requires from <= |log| && NoneSince(log, from, pair) && IsBuffer(run, pair) && run != [] && RunAt(log, at, run)
    ensures RunAt(log[..from], at, run)
  {
    var last := at + |run| - 1;
    assert log[last] == log[at..at + |run|][|run| - 1] == run[|run| - 1];
    assert log[..from][at..at + |run|] == log[at..at + |run|];
  }

  /** The log ends in these records, all of them past `from`. */
  ghost predicate EndsIn(log: seq<Rec>, from: nat, part: seq<Rec>) {
    from + |part| <= |log| && log[|log| - |part|..] == part
  }

  /** Appending the end of a run completes it exactly when the log ended in its beginning, or held it already. */
  lemma {:induction false} Completes(log: seq<Rec>, from: nat, at: nat, run: seq<Rec>, lost: nat, pair: Pair)
    requires IsBuffer(run, pair) && run != [] && lost <= |run| && from <= at
    requires RunAt(log + run[lost..], at, run)
    ensures RunAt(log, at, run) || EndsIn(log, from, run[..lost])
  {
    var all, last := log + run[lost..], at + |run| - 1;
    assert forall i | 0 <= i < |run| :: all[at + i] == all[at..at + |run|][i] == run[i];
    if last < |log| {
      assert all[at..at + |run|] == log[at..at + |run|];
    } else {
      assert all[last] == run[lost + last - |log|] && all[last] == run[|run| - 1];
      assert at + lost == |log|;
      assert forall i | 0 <= i < lost :: log[at..][i] == all[at + i];
    }
  }

  lemma {:induction false} Completed(log: seq<Rec>, from: nat, run: seq<Rec>, lost: nat)
    requires lost <= |run| && EndsIn(log, from, run[..lost])
    ensures from <= |log| - lost && RunAt(log + run[lost..], |log| - lost, run)
  {
    var at := |log| - lost;
    assert (log + run[lost..])[at..at + |run|] == log[at..] + run[lost..] == run;
  }

  lemma {:induction false} StaysAt(log: seq<Rec>, more: seq<Rec>, at: nat, run: seq<Rec>)
    requires log <= more && RunAt(log, at, run)
    ensures RunAt(more, at, run)
  {
    assert more[at..at + |run|] == more[..|log|][at..at + |run|];
  }

  lemma {:induction false} NoneIsThere(log: seq<Rec>, from: nat)
    requires from <= |log|
    ensures RunAt(log, from, [])
  {
  }

  /** Done with the run at step m, the log holds it later exactly when it held it then, or ended in the lost beginning. */
  lemma {:induction false} LandsExactly(ws: seq<World>, steps: seq<Step>, m: nat, n: nat, pair: Pair, p: Part,
                                        run: seq<Rec>, from: nat)
    requires IsRun(ws, steps) && Inv(ws[0]) && m <= n < |steps| && LandsAt(ws, steps, m, pair, p, run)
    requires from <= |Log(ws[m].store, p)|
    requires forall h | m < h <= n :: steps[h].BufferTxn? ==> steps[h].pair != pair
    ensures LandedSince(ws[n + 1], p, from, run) <==>
            || LandedSince(ws[m], p, from, run)
            || EndsIn(Log(ws[m].store, p), from, run[..LostBy(ws[m], steps[m], p)])
  {
    hide Inv, Next, Log, Enabled, Appends, LostBy, RunAt, EndsIn;
    var log, lost := Log(ws[m].store, p), LostBy(ws[m], steps[m], p);
    LandedFacts(ws, steps, m, n, pair, p, run);
    NoneAdded(ws, steps, m + 1, n + 1, pair, p);
    var next, more := Log(ws[m + 1].store, p), Log(ws[n + 1].store, p);
    assert more[..|next|] == next;
    if run == [] {
      NoneIsThere(log, from);
      NoneIsThere(more, from);
    } else if LandedSince(ws[n + 1], p, from, run) {
      var at: nat :| from <= at && RunAt(more, at, run);
      FoundBefore(more, |next|, at, run, pair);
      Completes(log, from, at, run, lost, pair);
    } else {
      if LandedSince(ws[m], p, from, run) {
        var at: nat :| from <= at && RunAt(log, at, run);
        StaysAt(log, more, at, run);
        assert false;
      }
      if EndsIn(log, from, run[..lost]) {
        Completed(log, from, run, lost);
        StaysAt(next, more, |log| - lost, run);
        assert false;
      }
    }
  }

  /**
   After any number of failed attempts, interleaved with anything, an EndTxn(commit) is answered 0. If a later
   incarnation had superseded this one, a partition's buffered records are in its log as one contiguous run in buffer
   order exactly when an earlier attempt had landed them already. If not, step m is the flush that was done with them.
   It appended all but the `lost` first, and lost some exactly when the partition's file was torn then; the run is in
   the log exactly when it was there before that flush, or the log ended then in just the lost records, left by an
   attempt that failed. So a partition whose file is not torn at that flush always has the whole run. What was
   appended stands from the end of the log as it was then, and nothing removes it; each record is past its promised
   offset by what LandsWherePromised says.
   */
  lemma {:induction false} RetriedCommitLands(ws: seq<World>, steps: seq<Step>, n: nat, p: Part) returns (m: nat)
    requires IsRun(ws, steps) && Inv(ws[0]) && n < |steps| && Answers(ws[n], steps[n])
    requires forall j | 0 <= j < n :: Retrying(ws[j], steps[j], steps[n].pair)
    requires KeyOf(steps[n].pair, p) in ws[0].store.buffers
    ensures var pair, run, from := steps[n].pair, ws[0].store.buffers[KeyOf(steps[n].pair, p)], |Log(ws[0].store, p)|;
            && m <= n
            && (Superseded(ws[n], pair) ==> (LandedSince(ws[n + 1], p, from, run) <==> LandedSince(ws[n], p, from, run)))
            && (!Superseded(ws[n], pair) ==>
                  && LandsAt(ws, steps, m, pair, p, run)
                  && var at, lost := |Log(ws[m].store, p)|, LostBy(ws[m], steps[m], p);
                     && (lost > 0 <==> p in ws[m].store.torn && run != [])
                     && (LandedSince(ws[n + 1], p, from, run) <==>
                           LandedSince(ws[m], p, from, run) || EndsIn(Log(ws[m].store, p), from, run[..lost]))
                     && (p !in ws[m].store.torn ==> LandedSince(ws[n + 1], p, from, run))
                     && RunAt(Log(ws[n + 1].store, p), at, run[lost..])
                     && (forall i | lost <= i < |run| ::
                           && run[i].stood <= at
                           && at + i - lost - Promised(run[i]) == (at - run[i].stood) - lost - (run[i].seen - run[i].stood)
                           && (run[i].seen == run[i].stood && p !in ws[m].store.torn ==>
                                 (at + i == Promised(run[i]) <==> at == run[i].stood))))
  {
    hide Inv, Next, Log, Superseded, Retrying, LandsAt, RunAt, EndsIn, LostBy, Appends;
    var w, s := ws[n], steps[n];
    var run, from := ws[0].store.buffers[KeyOf(s.pair, p)], |Log(ws[0].store, p)|;
    if Superseded(w, s.pair) {
      m := 0;
      RunInv(ws, steps, n);
      SupersededEmpty(w, s.pair, p);
      AnswersAppends(w, s, p);
      AppendedLog(w, s, p);
      FlushStores(w, s);
      assert Log(w.store, p) + [] == Log(w.store, p);
    } else {
      m := UnsupersededLands(ws, steps, n, p);
      LandedFacts(ws, steps, m, n, s.pair, p, run);
      NoBuffering(ws, steps, n, s.pair);
      LandsExactly(ws, steps, m, n, s.pair, p, run, from);
      WholeRun(ws, steps, m, s.pair, p, run, from);
    }
  }

  lemma {:induction false} NoBuffering(ws: seq<World>, steps: seq<Step>, n: nat, pair: Pair)
    requires IsRun(ws, steps) && n < |steps| && steps[n].Flush?
    requires forall j | 0 <= j < n :: Retrying(ws[j], steps[j], pair)
    ensures forall h | 0 <= h <= n :: steps[h].BufferTxn? ==> steps[h].pair != pair
  {
    hide Enabled, Next;
    forall h | 0 <= h <= n ensures steps[h].BufferTxn? ==> steps[h].pair != pair {
      assert h < n ==> Retrying(ws[h], steps[h], pair);
    }
  }

  lemma {:induction false} WholeRun(ws: seq<World>, steps: seq<Step>, m: nat, pair: Pair, p: Part, run: seq<Rec>,
                                    from: nat)
    requires LandsAt(ws, steps, m, pair, p, run) && from <= |Log(ws[m].store, p)|
    ensures LostBy(ws[m], steps[m], p) > 0 <==> p in ws[m].store.torn && run != []
    ensures p !in ws[m].store.torn ==> EndsIn(Log(ws[m].store, p), from, run[..LostBy(ws[m], steps[m], p)])
  {
  }

  lemma {:induction false} FlushStores(w: World, s: Step)
    requires s.Flush? && Enabled(w, s)
    ensures Next(w, s).store == s.after
  {
  }

  // ----- The commit that is answered and lands nothing -----

  lemma {:induction false} Extend(ws: seq<World>, steps: seq<Step>, s: Step)
    returns (more: seq<World>, taken: seq<Step>)
    requires IsRun(ws, steps) && Enabled(ws[|steps|], s)
    ensures more == ws + [Next(ws[|steps|], s)] && taken == steps + [s] && IsRun(more, taken)
  {
    hide Enabled, Next;
    more, taken := ws + [Next(ws[|steps|], s)], steps + [s];
  }

  lemma {:induction false} InitialisedRun(tid: string) returns (ws: seq<World>, steps: seq<Step>)
    ensures IsRun(ws, steps) && ws[0] == Start(0) && |steps| == 2
    ensures Coordination(ws[2]) == Init(Empty(0), tid)
    ensures ws[2] == Start(0).(calls := ws[2].calls, aborted := {Pair(0, 0)})
  {
    ws, steps := [Start(0)], [];
    OneMoreCall(ws[0], CallInit(tid));
    ws, steps := Extend(ws, steps, InitProducer(tid));
    ws, steps := Extend(ws, steps, RunAbort(Pair(0, 0)));
  }

  lemma {:induction false} InvokeRun(ws: seq<World>, steps: seq<Step>, call: Call)
    returns (more: seq<World>, taken: seq<Step>)
    requires IsRun(ws, steps) && Enabled(Last(ws), Invoke(call)) && Last(ws).flights == map[]
    ensures IsRun(more, taken) && |taken| == |steps| + 1 && more[0] == ws[0]
    ensures Coordination(Last(more)) == Apply(Coordination(Last(ws)), call)
    ensures Last(more) == Last(ws).(calls := Last(more).calls)
  {
    hide IsRun, Apply, After;
    assert |ws| == |steps| + 1 by { RunLength(ws, steps); }
    OneMoreCall(Last(ws), call);
    more, taken := Extend(ws, steps, Invoke(call));
    RunLength(more, taken);
  }

  function Last<T>(s: seq<T>): T
    requires s != []
  {
    s[|s| - 1]
  }

  lemma {:induction false} RunLength(ws: seq<World>, steps: seq<Step>)
    requires IsRun(ws, steps)
    ensures |ws| == |steps| + 1
  {
  }

  /** The coordinator once the producer has enrolled a partition and staged a consumer offset. */
  function Staging(tid: string, p: Part, o: GroupOffset): Coord {
    Apply(Apply(Apply(Init(Empty(0), tid), CallAddPartitions(tid, 0, 0, [p])), CallAddOffsets(tid, 0, 0, o.group)),
          CallStageOffsets(tid, 0, 0, [o.staged]))
  }

  lemma {:induction false} OpenedRun(tid: string, p: Part, o: GroupOffset) returns (ws: seq<World>, steps: seq<Step>)
    ensures IsRun(ws, steps) && ws[0] == Start(0) && |steps| == 5
    ensures Coordination(ws[5]) == Staging(tid, p, o)
    ensures ws[5] == Start(0).(calls := ws[5].calls, aborted := {Pair(0, 0)})
  {
    hide Apply, Init, After, Issued;
    ws, steps := InitialisedRun(tid);
    ws, steps := InvokeRun(ws, steps, CallAddPartitions(tid, 0, 0, [p]));
    ws, steps := InvokeRun(ws, steps, CallAddOffsets(tid, 0, 0, o.group));
    ws, steps := InvokeRun(ws, steps, CallStageOffsets(tid, 0, 0, [o.staged]));
  }

  /** Then it buffers a record and prepares its commit. */
  lemma {:induction false} PreparedRun(tid: string, p: Part, o: GroupOffset, payload: bytes)
    returns (ws: seq<World>, steps: seq<Step>)
    ensures IsRun(ws, steps) && ws[0] == Start(0) && |steps| == 8
    ensures var w, pair := ws[8], Pair(0, 0);
            && tid in Coordination(w).txns && PairOf(Coordination(w).txns[tid]) == pair
            && Coordination(w) == Staging(tid, p, o)
            && w.flights == map[pair := Ending(tid, true, [o])] && w.attempted == {}
            && w.serials == map[] && Accepted(w, Tag(pair, 0), p) == Marked([payload], Tag(pair, 0), 0, 0, 0)
            && w.store == Store(map[], map[], {}, map[KeyOf(pair, p) := Marked([payload], Tag(pair, 0), 0, 0, 0)])
            && w.settled == [] && w.aborted == {pair}
  {
    hide After, Issued, Apply, Init, ProduceCheck, EndCode, EndOffsets, Staging;
    var pair := Pair(0, 0);
    ws, steps := OpenedRun(tid, p, o);
    Opened(tid, p, o);
    ws, steps := Extend(ws, steps, Check(pair, p, [payload]));
    ws, steps := Extend(ws, steps, BufferTxn(pair, false));
    ws, steps := Extend(ws, steps, Prepare(tid, pair, true));
  }

  lemma {:induction false} Opened(tid: string, p: Part, o: GroupOffset)
    ensures var c := Staging(tid, p, o);
            && tid in c.txns && PairOf(c.txns[tid]) == Pair(0, 0)
            && ProduceCheck(c, 0, 0, p) == NONE && EndCode(c, tid, 0, 0) == NONE && EndOffsets(c, tid, true) == [o]
  {
    var c0 := Init(Empty(0), tid);
    var c1 := Apply(c0, CallAddPartitions(tid, 0, 0, [p]));
    var c2 := Apply(c1, CallAddOffsets(tid, 0, 0, o.group));
    assert c1.txns[tid] == Txn(0, 0, true, {p}, None, []);
    assert c2.txns[tid] == Txn(0, 0, true, {p}, Some(o.group), []);
    assert [] + [o.staged] == [o.staged];
    assert Staging(tid, p, o).txns[tid] == Txn(0, 0, true, {p}, Some(o.group), [o.staged]);
  }

  /** Then another session re-initialises the same transactional id, and its abort drops the buffer. */
  lemma {:induction false} ReinitedRun(tid: string, p: Part, o: GroupOffset, payload: bytes)
    returns (ws: seq<World>, steps: seq<Step>)
    ensures IsRun(ws, steps) && ws[0] == Start(0) && |steps| == 10
    ensures var w, pair := ws[10], Pair(0, 0);
            && w.flights == map[pair := Ending(tid, true, [o])] && w.store == Store(map[], map[], {}, map[])
            && w.serials == map[] && Accepted(w, Tag(pair, 0), p) != [] && w.settled == []
  {
    hide After, Issued, Apply, Staging, ProduceCheck, EndCode, EndOffsets;
    ws, steps := PreparedRun(tid, p, o, payload);
    var w := ws[8];
    assert PairOf(InitTxn(Coordination(w), tid)) == Pair(0, 1);
    ws, steps := Extend(ws, steps, InitProducer(tid));
    ws, steps := Extend(ws, steps, RunAbort(Pair(0, 1)));
    assert Without(w.store.buffers, 0, 1) == map[];
    assert ws[10].flights == map[Pair(0, 0) := Ending(tid, true, [o])];
  }

  /**
   "An answered commit has landed" fails when another session re-initialises the same transactional id between the
   prepare and the flush: the new incarnation's abort drops the buffers, the old one's flush finds nothing to append,
   and it is answered all the same. Its staged consumer offset is committed, without the records.
   */
  lemma {:induction false} SupersededCommitLandsNothing(tid: string, p: Part, o: GroupOffset, payload: bytes)
    returns (ws: seq<World>, steps: seq<Step>)
    ensures IsRun(ws, steps) && ws[0] == Start(0) && |steps| == 12 && Answers(ws[10], steps[10])
    ensures steps[10].pair == Pair(0, 0) && Accepted(ws[10], Tag(Pair(0, 0), 0), p) != []
    ensures (forall q :: Log(ws[12].store, q) == []) && ws[12].settled == [Settled(Tag(Pair(0, 0), 0), o)]
    ensures Enabled(ws[12], FinishTxn(Pair(0, 0)))
  {
    hide After, Issued, Apply, Committed, Coordination;
    ws, steps := ReinitedRun(tid, p, o, payload);
    var none: Store<Rec> := Store(map[], map[], {}, map[]);
    NothingLeft(none);
    ws, steps := Extend(ws, steps, Flush(Pair(0, 0), true, none));
    ws, steps := Extend(ws, steps, CommitOffsets(Pair(0, 0), 1));
    assert [] + Tagged(Tag(Pair(0, 0), 0), [o][..1]) == [Settled(Tag(Pair(0, 0), 0), o)];
  }

  /**
   It fails as well when an attempt tears in the middle of a frame. The retry appends behind the torn bytes, where no
   scan finds the record; it succeeds, commits the staged consumer offset and is answered, though nothing superseded it.
   */
  lemma {:induction false} TornCommitLandsNothing(tid: string, p: Part, o: GroupOffset, payload: bytes)
    returns (ws: seq<World>, steps: seq<Step>)
    ensures IsRun(ws, steps) && ws[0] == Start(0) && |steps| == 12 && Answers(ws[10], steps[10])
    ensures steps[10].pair == Pair(0, 0) && Accepted(ws[10], Tag(Pair(0, 0), 0), p) != [] && !Superseded(ws[10], Pair(0, 0))
    ensures (forall q :: Log(ws[12].store, q) == []) && ws[12].settled == [Settled(Tag(Pair(0, 0), 0), o)]
    ensures Enabled(ws[12], FinishTxn(Pair(0, 0)))
  {
    hide After, Issued, Apply, EndCode, EndOffsets, Staging, Committed, CommitFailed;
    var pair := Pair(0, 0);
    ws, steps := PreparedRun(tid, p, o, payload);
    Opened(tid, p, o);
    var k, rs := KeyOf(pair, p), Marked([payload], Tag(pair, 0), 0, 0, 0);
    var torn := Store(map[p := []], map[p := 0], {p}, map[k := rs]);
    assert rs == [rs[0]];
    TearsFirst(p, rs[0]);
    ws, steps := Extend(ws, steps, Flush(pair, false, torn));
    ws, steps := Extend(ws, steps, Prepare(tid, pair, true));
    LosesNext(p, rs[0]);
    ws, steps := Extend(ws, steps, Flush(pair, true, Store(map[p := []], map[p := 1], {p}, map[])));
    ws, steps := Extend(ws, steps, CommitOffsets(pair, 1));
    assert [] + Tagged(Tag(pair, 0), [o][..1]) == [Settled(Tag(pair, 0), o)];
  }

  lemma {:induction false} TearsFirst(p: Part, r: Rec)
    ensures CommitFailed(Store(map[], map[], {}, map[Key(0, 0, p) := [r]]),
                         Store(map[p := []], map[p := 0], {p}, map[Key(0, 0, p) := [r]]), 0, 0)
  {
    var s := Store(map[], map[], {}, map[Key(0, 0, p) := [r]]);
    var t := Store(map[p := []], map[p := 0], {p}, map[Key(0, 0, p) := [r]]);
    forall q {:trigger Key(0, 0, q)} ensures HalfDone(s, t, Key(0, 0, q)) {
      if q == p {
        assert Took(s, t, p, [r], Fate(0, 0, true, false, true));
      } else {
        NothingLands(s, t, q);
      }
    }
  }

  lemma {:induction false} LosesNext(p: Part, r: Rec)
    ensures Committed(Store(map[p := []], map[p := 0], {p}, map[Key(0, 0, p) := [r]]),
                      Store(map[p := []], map[p := 1], {p}, map[]), 0, 0)
  {
    var s := Store(map[p := []], map[p := 0], {p}, map[Key(0, 0, p) := [r]]);
    var t: Store<Rec> := Store(map[p := []], map[p := 1], {p}, map[]);
    assert t.buffers == Without(s.buffers, 0, 0);
    forall q {:trigger Key(0, 0, q)} ensures Landed(s, t, q, Buffered(s, Key(0, 0, q))) {
      if q == p {
        TookIsLanded(s, t, p, [r], Fate(1, 1, true, true, false));
      } else {
        NothingLands(s, t, q);
      }
    }
  }

  lemma {:induction false} NothingLeft(s: Store<Rec>)
    requires s.buffers == map[]
    ensures Committed(s, s, 0, 0)
  {
    forall q {:trigger Key(0, 0, q)} ensures Landed(s, s, q, Buffered(s, Key(0, 0, q))) {
      NothingLands(s, s, q);
    }
    assert Without(s.buffers, 0, 0) == s.buffers;
  }
}
