/**
 The consumer offsets of a transaction: a commit that is answered has committed every offset staged since the
 transaction opened, for the group named last.
 */
module TxnStaging {
  import opened Wrappers
  import Bytes
  import opened TxnCoordinator
  import opened TxnBroker
  import opened TxnRuns
  import opened TxnCommits
  import opened TxnHistory

  ghost predicate FlightStaged(w: World, pair: Pair)
    requires pair in w.flights
  {
    var f := w.flights[pair];
    && ((f.Ending? || f.Flushed?) && f.commit && Holds(Coordination(w), f.tid, pair.pid, pair.epoch) ==>
          f.offsets == EndOffsets(Coordination(w), f.tid, true))
    && (f.Flushed? && f.settled ==> forall o <- f.offsets :: Settled(CurrentTag(w, pair), o) in w.settled)
  }

  ghost predicate AllStaged(w: World) {
    forall pair <- w.flights :: FlightStaged(w, pair)
  }

  /** The coordinator's entry for a transactional id is what the offsets of an EndTxn depend on. */
  lemma {:induction false} SameStaged(w: World, v: World, pair: Pair)
    requires pair in w.flights && FlightStaged(w, pair) && pair in v.flights && v.flights[pair] == w.flights[pair]
    requires Serial(v, pair) == Serial(w, pair) && (forall e <- w.settled :: e in v.settled)
    requires var f := w.flights[pair];
             (f.Ending? || f.Flushed?) && Holds(Coordination(v), f.tid, pair.pid, pair.epoch) ==>
               f.tid in Coordination(w).txns && Coordination(v).txns[f.tid] == Coordination(w).txns[f.tid]
    ensures FlightStaged(v, pair)
  {
    hide After;
  }

  lemma {:induction false} InitLeaves(c: Coord, tid: string, other: string, pair: Pair)
    requires Holds(Init(c, tid), other, pair.pid, pair.epoch) && PairOf(InitTxn(c, tid)) != pair
    ensures other in c.txns && Init(c, tid).txns[other] == c.txns[other]
  {
    hide InitTxn;
  }

  lemma {:induction false} CallLeaves(c: Coord, call: Call, other: string, pair: Pair)
    requires (ByIncarnation(call) || call.CallFinish?) && Pair(call.pid, call.epoch) != pair
    requires Holds(Apply(c, call), other, pair.pid, pair.epoch)
    ensures other in c.txns && Apply(c, call).txns[other] == c.txns[other]
  {
  }

  lemma {:induction false} InitStaged(w: World, tid: string)
    requires Inv(w) && AllStaged(w)
    ensures AllStaged(Next(w, InitProducer(tid)))
  {
    hide After, Issued, InitTxn, Init, FlightStaged, BuffersOwned, AcceptedKept, LogsCommitted, OffsetsCommitted, InitsAborted;
    var v, c := Next(w, InitProducer(tid)), Coordination(w);
    OneMoreCall(w, CallInit(tid));
    InitIsFresh(w, tid);
    forall pair <- v.flights ensures FlightStaged(v, pair) {
      if pair in w.flights {
        InFlightIsAnswered(w, pair);
        var f := w.flights[pair];
        if (f.Ending? || f.Flushed?) && Holds(Coordination(v), f.tid, pair.pid, pair.epoch) {
          InitLeaves(c, tid, f.tid, pair);
        }
        SameStaged(w, v, pair);
      } else {
        NoneStaged(v, pair);
      }
    }
  }

  lemma {:induction false} NoneStaged(w: World, pair: Pair)
    requires pair in w.flights && !w.flights[pair].Ending? && !w.flights[pair].Flushed?
    ensures FlightStaged(w, pair)
  {
  }

  /** A call of another incarnation, or the finish of one, leaves this one's transaction alone. */
  lemma {:induction false} CallStaged(w: World, v: World, call: Call, pair: Pair)
    requires AllStaged(w) && (ByIncarnation(call) || call.CallFinish?) && Pair(call.pid, call.epoch) != pair
    requires v.first == w.first && v.calls == w.calls + [call] && v.settled == w.settled && Serial(v, pair) == Serial(w, pair)
    requires pair in w.flights && pair in v.flights && v.flights[pair] == w.flights[pair]
    ensures FlightStaged(v, pair)
  {
    hide After, Apply, FlightStaged;
    OneMoreCall(w, call);
    var f := w.flights[pair];
    if (f.Ending? || f.Flushed?) && Holds(Coordination(v), f.tid, pair.pid, pair.epoch) {
      CallLeaves(Coordination(w), call, f.tid, pair);
    }
    SameStaged(w, v, pair);
  }

  lemma {:induction false} InvokeStaged(w: World, call: Call)
    requires AllStaged(w) && Enabled(w, Invoke(call))
    ensures AllStaged(Next(w, Invoke(call)))
  {
    hide Apply, FlightStaged, Coordination;
    var v := Next(w, Invoke(call));
    forall pair <- v.flights ensures FlightStaged(v, pair) {
      CallStaged(w, v, call, pair);
    }
  }

  lemma {:induction false} FinishStaged(w: World, done: Pair)
    requires AllStaged(w) && Enabled(w, FinishTxn(done))
    ensures AllStaged(Next(w, FinishTxn(done)))
  {
    hide Apply, FlightStaged, Coordination;
    var v := Next(w, FinishTxn(done));
    forall pair <- v.flights ensures FlightStaged(v, pair) {
      CallStaged(w, v, CallFinish(w.flights[done].tid, done.pid, done.epoch), pair);
    }
  }

  lemma {:induction false} PrepareStaged(w: World, tid: string, pair: Pair, commit: bool)
    requires AllStaged(w) && Enabled(w, Prepare(tid, pair, commit))
    ensures AllStaged(Next(w, Prepare(tid, pair, commit)))
  {
    hide After, EndCode, EndOffsets;
    var v := Next(w, Prepare(tid, pair, commit));
    forall q <- v.flights ensures FlightStaged(v, q) {
      assert q in w.flights ==> FlightStaged(w, q);
    }
  }

  lemma {:induction false} FlushStaged(w: World, s: Step)
    requires AllStaged(w) && s.Flush? && Enabled(w, s)
    ensures AllStaged(Next(w, s))
  {
    hide After, EndOffsets, Committed, CommitFailed, Abort;
    var v := Next(w, s);
    forall q <- v.flights ensures FlightStaged(v, q) {
      assert FlightStaged(w, q);
    }
  }

  lemma {:induction false} CommitStaged(w: World, pair: Pair, n: nat)
    requires AllStaged(w) && Enabled(w, CommitOffsets(pair, n))
    ensures AllStaged(Next(w, CommitOffsets(pair, n)))
  {
    hide After, EndOffsets;
    var v := Next(w, CommitOffsets(pair, n));
    var f, tag := w.flights[pair], CurrentTag(w, pair);
    forall q <- v.flights ensures FlightStaged(v, q) {
      assert FlightStaged(w, q);
      if q == pair {
        assert f.offsets[..n] == f.offsets;
        forall o <- f.offsets ensures Settled(tag, o) in v.settled {
          var i :| 0 <= i < |f.offsets| && f.offsets[i] == o;
          assert Tagged(tag, f.offsets)[i] == Settled(tag, o);
        }
      }
    }
  }

  lemma {:induction false} QuietStaged(w: World, s: Step)
    requires AllStaged(w) && Enabled(w, s) && (s.RunAbort? || s.Check? || s.BufferTxn? || s.PlainProduce?)
    ensures AllStaged(Next(w, s))
  {
    hide After, EndOffsets, ProduceCheck, Append, Possible;
    var v := Next(w, s);
    forall q <- v.flights ensures FlightStaged(v, q) {
      assert q in w.flights ==> FlightStaged(w, q);
    }
  }

  lemma {:induction false} StepKeepsStaged(w: World, s: Step)
    requires Inv(w) && AllStaged(w) && Enabled(w, s)
    ensures AllStaged(Next(w, s))
  {
    hide Inv, Enabled, AllStaged;
    match s
    case InitProducer(tid) => InitStaged(w, tid);
    case Invoke(call) => InvokeStaged(w, call);
    case FinishTxn(pair) => FinishStaged(w, pair);
    case Prepare(tid, pair, commit) => PrepareStaged(w, tid, pair, commit);
    case Flush(_, _, _) => FlushStaged(w, s);
    case CommitOffsets(pair, n) => CommitStaged(w, pair, n);
    case _ => QuietStaged(w, s);
  }

  lemma {:induction false} RunStaged(ws: seq<World>, steps: seq<Step>, first: int, i: nat)
    requires IsRun(ws, steps) && ws[0] == Start(first) && i < |ws|
    ensures AllStaged(ws[i])
    decreases i
  {
    hide Inv, Enabled, Next, FlightStaged;
    if i > 0 {
      RunStaged(ws, steps, first, i - 1);
      ReachableInv(ws, steps, first, i - 1);
      StepKeepsStaged(ws[i - 1], steps[i - 1]);
    }
  }

  /**
   When an EndTxn(commit) is about to be answered and its transactional id was not re-initialised meanwhile, every
   offset staged since the transaction opened is committed for its group.
   */
  lemma {:induction false} AnsweredSettlesAll(ws: seq<World>, steps: seq<Step>, first: int, i: nat, pair: Pair,
                                              group: string, o: Staged)
    requires IsRun(ws, steps) && ws[0] == Start(first) && i < |ws| && Enabled(ws[i], FinishTxn(pair))
    requires ws[i].flights[pair].commit
    requires Holds(Coordination(ws[i]), ws[i].flights[pair].tid, pair.pid, pair.epoch)
    requires var tid := ws[i].flights[pair].tid;
             GroupSince(ws[i].first, ws[i].calls, tid) == Some(group) && o in StagedSince(ws[i].first, ws[i].calls, tid)
    ensures Settled(CurrentTag(ws[i], pair), GroupOffset(group, o)) in ws[i].settled
  {
    hide IsRun, After, StagedSince, GroupSince;
    var w, tid := ws[i], ws[i].flights[pair].tid;
    RunStaged(ws, steps, first, i);
    assert FlightStaged(w, pair);
    StagedIsHistory(w.first, w.calls, tid);
    GroupIsHistory(w.first, w.calls, tid);
    var t := Coordination(w).txns[tid];
    var n :| 0 <= n < |t.staged| && t.staged[n] == o;
    assert EndOffsets(Coordination(w), tid, true)[n] == GroupOffset(group, o);
  }
}
