/**
 The produce fence over every interleaving: a transactional record is buffered only on a partition its own transaction
 has enrolled, so no partition carries records of two transactions that are under way.
 */
module TxnFence {
  import opened Wrappers
  import Bytes
  import opened TxnCoordinator
  import opened TxnBroker
  import opened TxnRuns
  import opened TxnCommits

  /** Whichever transactional id holds the pair has enrolled the partition. */
  ghost predicate Enrols(c: Coord, pair: Pair, part: Part) {
    forall tid <- c.txns :: PairOf(c.txns[tid]) == pair ==> part in c.txns[tid].partitions
  }

  ghost predicate Fenced(w: World) {
    && (forall k <- w.store.buffers :: Enrols(Coordination(w), PairOfKey(k), k.part))
    && (forall pair <- w.flights :: w.flights[pair].Checked? ==> Enrols(Coordination(w), pair, w.flights[pair].part))
  }

  lemma {:induction false} InitEnrols(c: Coord, tid: string, pair: Pair, part: Part)
    requires Enrols(c, pair, part) && PairOf(InitTxn(c, tid)) != pair
    ensures Enrols(Init(c, tid), pair, part)
  {
    hide InitTxn;
  }

  /** Calls of the transaction's own only add partitions. */
  lemma {:induction false} CallEnrols(c: Coord, call: Call, pair: Pair, part: Part)
    requires Enrols(c, pair, part) && ByIncarnation(call)
    ensures Enrols(Apply(c, call), pair, part)
  {
    var d := Apply(c, call);
    forall tid <- d.txns | PairOf(d.txns[tid]) == pair ensures part in d.txns[tid].partitions {
      assert PairOf(c.txns[tid]) == pair;
    }
  }

  lemma {:induction false} FinishEnrols(c: Coord, tid: string, done: Pair, pair: Pair, part: Part)
    requires Enrols(c, pair, part) && done != pair
    ensures Enrols(Finish(c, tid, done.pid, done.epoch), pair, part)
  {
    var d := Finish(c, tid, done.pid, done.epoch);
    forall t <- d.txns | PairOf(d.txns[t]) == pair ensures part in d.txns[t].partitions {
      assert PairOf(c.txns[t]) == pair;
    }
  }

  lemma {:induction false} CheckedEnrols(w: World, pair: Pair, part: Part)
    requires ProduceCheck(Coordination(w), pair.pid, pair.epoch, part) == NONE
    ensures Enrols(Coordination(w), pair, part)
  {
    hide After, ClaimsAgree;
    ClaimsAlwaysAgree(w.first, w.calls);
  }

  lemma {:induction false} InitFenced(w: World, tid: string)
    requires Inv(w) && Fenced(w)
    ensures Fenced(Next(w, InitProducer(tid)))
  {
    hide After, Issued, InitTxn, Init, Enrols, AcceptedKept, LogsCommitted, OffsetsCommitted, InitsAborted, BufferedFrom, Superseded;
    var v, c := Next(w, InitProducer(tid)), Coordination(w);
    OneMoreCall(w, CallInit(tid));
    InitIsFresh(w, tid);
    forall k <- v.store.buffers ensures Enrols(Coordination(v), PairOfKey(k), k.part) {
      assert BufferOwned(w, k);
      InitEnrols(c, tid, PairOfKey(k), k.part);
    }
    forall pair <- v.flights | v.flights[pair].Checked? ensures Enrols(Coordination(v), pair, v.flights[pair].part) {
      InFlightIsAnswered(w, pair);
      InitEnrols(c, tid, pair, v.flights[pair].part);
    }
  }

  lemma {:induction false} InvokeFenced(w: World, call: Call)
    requires Fenced(w) && Enabled(w, Invoke(call))
    ensures Fenced(Next(w, Invoke(call)))
  {
    hide After, Issued, Apply, Enrols;
    var v, c := Next(w, Invoke(call)), Coordination(w);
    OneMoreCall(w, call);
    forall k <- v.store.buffers ensures Enrols(Coordination(v), PairOfKey(k), k.part) {
      CallEnrols(c, call, PairOfKey(k), k.part);
    }
    forall pair <- v.flights | v.flights[pair].Checked? ensures Enrols(Coordination(v), pair, v.flights[pair].part) {
      CallEnrols(c, call, pair, v.flights[pair].part);
    }
  }

  lemma {:induction false} FinishFenced(w: World, pair: Pair)
    requires Inv(w) && Fenced(w) && Enabled(w, FinishTxn(pair))
    ensures Fenced(Next(w, FinishTxn(pair)))
  {
    hide After, Issued, Apply, Finish, Enrols, AcceptedKept, LogsCommitted, OffsetsCommitted, InitsAborted, FlightsKnown,
         BufferedFrom, Superseded;
    var v, c, tid := Next(w, FinishTxn(pair)), Coordination(w), w.flights[pair].tid;
    var call := CallFinish(tid, pair.pid, pair.epoch);
    OneMoreCall(w, call);
    assert Coordination(v) == Finish(c, tid, pair.pid, pair.epoch) by { FinishApplies(c, call); }
    forall k <- v.store.buffers ensures Enrols(Coordination(v), PairOfKey(k), k.part) {
      assert BufferOwned(w, k);
      FinishEnrols(c, tid, pair, PairOfKey(k), k.part);
    }
    forall q <- v.flights | v.flights[q].Checked? ensures Enrols(Coordination(v), q, v.flights[q].part) {
      FinishEnrols(c, tid, pair, q, v.flights[q].part);
    }
  }

  lemma {:induction false} FinishApplies(c: Coord, call: Call)
    requires call.CallFinish?
    ensures Apply(c, call) == Finish(c, call.tid, call.pid, call.epoch)
  {
  }

  lemma {:induction false} CheckFenced(w: World, pair: Pair, part: Part, payloads: seq<Bytes.bytes>)
    requires Fenced(w) && Enabled(w, Check(pair, part, payloads))
    ensures Fenced(Next(w, Check(pair, part, payloads)))
  {
    hide After, Issued, Enrols, ProduceCheck;
    if ProduceCheck(Coordination(w), pair.pid, pair.epoch, part) == NONE {
      CheckedEnrols(w, pair, part);
    }
  }

  /** A step that leaves the coordinator alone, adds no buffer but a checked one, and checks nothing. */
  lemma {:induction false} OthersFenced(w: World, s: Step)
    requires Fenced(w) && Enabled(w, s) && Next(w, s).calls == w.calls && !s.Check?
    ensures Fenced(Next(w, s))
  {
    hide After, Issued, Enrols, ProduceCheck, EndCode, EndOffsets, Committed, CommitFailed, Append, Possible;
    var v := Next(w, s);
    forall k <- v.store.buffers ensures Enrols(Coordination(v), PairOfKey(k), k.part) {
      if s.Flush? {
        FlushKeepsOrDrops(w, s, k);
      } else if s.PlainProduce? {
        PlainGrows(w, s, k.part);
      }
    }
  }

  lemma {:induction false} StepKeepsFence(w: World, s: Step)
    requires Inv(w) && Fenced(w) && Enabled(w, s)
    ensures Fenced(Next(w, s))
  {
    hide Inv, Enabled, Fenced;
    match s
    case InitProducer(tid) => InitFenced(w, tid);
    case Invoke(call) => InvokeFenced(w, call);
    case FinishTxn(pair) => FinishFenced(w, pair);
    case Check(pair, part, payloads) => CheckFenced(w, pair, part, payloads);
    case _ => OthersFenced(w, s);
  }

  lemma {:induction false} RunFenced(ws: seq<World>, steps: seq<Step>, first: int, i: nat)
    requires IsRun(ws, steps) && ws[0] == Start(first) && i < |ws|
    ensures Fenced(ws[i])
    decreases i
  {
    hide Inv, Enabled, Next, Fenced;
    if i == 0 {
      StartFenced(first);
    } else {
      RunFenced(ws, steps, first, i - 1);
      ReachableInv(ws, steps, first, i - 1);
      StepKeepsFence(ws[i - 1], steps[i - 1]);
    }
  }

  lemma {:induction false} StartFenced(first: int)
    ensures Fenced(Start(first))
  {
  }

  /**
   In every reachable world, whoever holds a buffer's producer id and epoch has enrolled its partition, even when the
   check and the buffering were interleaved with anything.
   */
  lemma {:induction false} BuffersEnrolled(ws: seq<World>, steps: seq<Step>, first: int, i: nat, k: Key, tid: string)
    requires IsRun(ws, steps) && ws[0] == Start(first) && i < |ws| && k in ws[i].store.buffers
    requires var c := Coordination(ws[i]); tid in c.txns && c.txns[tid].producerId == k.pid && c.txns[tid].epoch == k.epoch
    ensures k.part in Coordination(ws[i]).txns[tid].partitions
  {
    hide IsRun, Coordination;
    RunFenced(ws, steps, first, i);
    assert Enrols(Coordination(ws[i]), PairOfKey(k), k.part);
  }

  /** So no partition ever has buffered records of two incarnations that are both current. */
  lemma {:induction false} OneWriterPerPartition(ws: seq<World>, steps: seq<Step>, first: int, i: nat, k: Key, q: Key)
    requires IsRun(ws, steps) && ws[0] == Start(first) && i < |ws|
    requires k in ws[i].store.buffers && q in ws[i].store.buffers && k.part == q.part
    requires Current(Coordination(ws[i]), PairOfKey(k)) && Current(Coordination(ws[i]), PairOfKey(q))
    ensures k == q
  {
    hide IsRun, After;
    var c := Coordination(ws[i]);
    var a :| a in c.txns && PairOf(c.txns[a]) == PairOfKey(k);
    var b :| b in c.txns && PairOf(c.txns[b]) == PairOfKey(q);
    BuffersEnrolled(ws, steps, first, i, k, a);
    BuffersEnrolled(ws, steps, first, i, q, b);
    if a != b {
      OneTransactionPerPartition(ws[i].first, ws[i].calls, a, b);
    }
  }
}
