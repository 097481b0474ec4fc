/**
 Transactions under interleaving. Every call made under one lock is one step, so a Produce is two steps (check, then
 buffer), InitProducerId two (bump, then abort) and EndTxn three or four (prepare, flush, offsets, finish). Each
 producer incarnation has at most one request in flight; everything else interleaves freely.
 */
module TxnRuns {
  import opened Wrappers
  import opened Bytes
  import opened TxnCoordinator
  import opened TxnBroker

  /** One transaction: the incarnation that runs it, and how many it had finished before. */
  datatype Tag = Tag(pair: Pair, serial: nat)

  /**
   A record; a transactional one carries its transaction, the lengths of the partition's index and of its log when it
   was buffered, and its place in the buffer.
   */
  datatype Rec = Rec(payload: bytes, origin: Option<Tag>, seen: nat, stood: nat, place: nat)

  /** A consumer offset a transaction stages for its group. */
  datatype GroupOffset = GroupOffset(group: string, staged: Staged)

  /** A consumer offset some transaction's commit has made durable. */
  datatype Settled = Settled(tag: Tag, offset: GroupOffset)

  datatype Flight =
    | Aborting
    | Checked(part: Part, payloads: seq<bytes>)
    | Ending(tid: string, commit: bool, offsets: seq<GroupOffset>)
    | Flushed(tid: string, commit: bool, offsets: seq<GroupOffset>, settled: bool)

  /**
   The coordinator as the calls made on it, the broker's store, the requests in flight, and the history: finished
   transactions per incarnation, transactions with a prepared commit, with a flush attempted, the incarnations whose
   InitProducerId has run its abort, the records each transaction had accepted on each partition, the consumer offsets
   its commit was prepared with, and those committed.
   */
  datatype World = World(first: int, calls: seq<Call>, store: Store<Rec>, flights: map<Pair, Flight>,
                         serials: map<Pair, nat>, prepared: set<Tag>, attempted: set<Tag>, aborted: set<Pair>,
                         accepted: map<(Tag, Part), seq<Rec>>, staged: set<Settled>, settled: seq<Settled>)

  datatype Step =
    | InitProducer(tid: string)
    | RunAbort(pair: Pair)
    | Invoke(call: Call)
    | Check(pair: Pair, part: Part, payloads: seq<bytes>)
    | BufferTxn(pair: Pair, refused: bool)
    | Prepare(tid: string, pair: Pair, commit: bool)
    | Flush(pair: Pair, ok: bool, after: Store<Rec>)
    | CommitOffsets(pair: Pair, n: nat)
    | FinishTxn(pair: Pair)
    | PlainProduce(part: Part, payloads: seq<bytes>, fate: Fate)

  function Start(first: int): World {
    World(first, [], Store(map[], map[], {}, map[]), map[], map[], {}, {}, {}, map[], {}, [])
  }

  function Coordination(w: World): Coord {
    After(Empty(w.first), w.calls)
  }

  function Answered(w: World): seq<Pair> {
    Issued(Empty(w.first), w.calls)
  }

  function Serial(w: World, pair: Pair): nat {
    if pair in w.serials then w.serials[pair] else 0
  }

  function CurrentTag(w: World, pair: Pair): Tag {
    Tag(pair, Serial(w, pair))
  }

  function Accepted(w: World, tag: Tag, p: Part): seq<Rec> {
    if (tag, p) in w.accepted then w.accepted[(tag, p)] else []
  }

  function KeyOf(pair: Pair, p: Part): Key {
    Key(pair.pid, pair.epoch, p)
  }

  function PairOfKey(k: Key): Pair {
    Pair(k.pid, k.epoch)
  }

  /** What a prepared EndTxn will commit besides the records: the staged offsets of its group, for a commit only. */
  function EndOffsets(c: Coord, tid: string, commit: bool): seq<GroupOffset> {
    if !commit || tid !in c.txns || c.txns[tid].group.None? then []
    else
      var t := c.txns[tid];
      seq(|t.staged|, i requires 0 <= i < |t.staged| => GroupOffset(t.group.value, t.staged[i]))
  }

  function Tagged(tag: Tag, offsets: seq<GroupOffset>): (r: seq<Settled>)
    ensures |r| == |offsets| && forall i | 0 <= i < |r| :: r[i] == Settled(tag, offsets[i])
  {
    seq(|offsets|, i requires 0 <= i < |offsets| => Settled(tag, offsets[i]))
  }

  /** The records of a batch as they enter the buffer `base` records long, over this index and log length. */
  function Marked(payloads: seq<bytes>, tag: Tag, seen: nat, stood: nat, base: nat): (rs: seq<Rec>)
    ensures |rs| == |payloads|
    ensures forall i | 0 <= i < |rs| :: rs[i] == Rec(payloads[i], Some(tag), seen, stood, base + i)
  {
    seq(|payloads|, i requires 0 <= i < |payloads| => Rec(payloads[i], Some(tag), seen, stood, base + i))
  }

  function Plain(payloads: seq<bytes>): (rs: seq<Rec>)
    ensures |rs| == |payloads|
    ensures forall i | 0 <= i < |rs| :: rs[i] == Rec(payloads[i], None, 0, 0, 0)
  {
    seq(|payloads|, i requires 0 <= i < |payloads| => Rec(payloads[i], None, 0, 0, 0))
  }

  function Listed<T>(s: seq<T>): set<T> {
    set x | x in s
  }

  predicate Idle(w: World, pair: Pair) {
    pair !in w.flights
  }

  /** A call of one lock that belongs to an incarnation, and its pair. */
  predicate ByIncarnation(call: Call) {
    call.CallAddPartitions? || call.CallAddOffsets? || call.CallStageOffsets?
  }

  ghost predicate Enabled(w: World, s: Step) {
    match s
    case InitProducer(tid) => true
    case RunAbort(pair) => pair in w.flights && w.flights[pair].Aborting?
    case Invoke(call) => ByIncarnation(call) && Idle(w, Pair(call.pid, call.epoch))
    case Check(pair, part, payloads) => Idle(w, pair)
    case BufferTxn(pair, refused) => pair in w.flights && w.flights[pair].Checked?
    case Prepare(tid, pair, commit) => Idle(w, pair)
    case Flush(pair, ok, after) =>
      pair in w.flights && w.flights[pair].Ending? &&
      if !w.flights[pair].commit then ok && after == Abort(w.store, pair.pid, pair.epoch)
      else if ok then Committed(w.store, after, pair.pid, pair.epoch)
      else CommitFailed(w.store, after, pair.pid, pair.epoch)
    case CommitOffsets(pair, n) =>
      pair in w.flights && w.flights[pair].Flushed? && !w.flights[pair].settled && n <= |w.flights[pair].offsets|
    case FinishTxn(pair) => pair in w.flights && w.flights[pair].Flushed? && w.flights[pair].settled
    case PlainProduce(part, payloads, fate) => Possible(part in w.store.torn, |payloads|, fate)
  }

  function Next(w: World, s: Step): World
    requires Enabled(w, s)
  {
    match s
    case InitProducer(tid) =>
      w.(calls := w.calls + [CallInit(tid)], flights := w.flights[PairOf(InitTxn(Coordination(w), tid)) := Aborting])
    case RunAbort(pair) =>
      w.(store := Abort(w.store, pair.pid, pair.epoch), flights := w.flights - {pair}, aborted := w.aborted + {pair})
    case Invoke(call) => w.(calls := w.calls + [call])
    case Check(pair, part, payloads) =>
      if ProduceCheck(Coordination(w), pair.pid, pair.epoch, part) != NONE then w
      else w.(flights := w.flights[pair := Checked(part, payloads)])
    case BufferTxn(pair, refused) =>
      if refused then w.(flights := w.flights - {pair})
      else
        var f, k := w.flights[pair], KeyOf(pair, w.flights[pair].part);
        var rs := Marked(f.payloads, CurrentTag(w, pair), Length(w.store, f.part), |Log(w.store, f.part)|,
                         |Buffered(w.store, k)|);
        w.(store := Buffer(w.store, k, rs), flights := w.flights - {pair},
           accepted := w.accepted[(CurrentTag(w, pair), f.part) := Accepted(w, CurrentTag(w, pair), f.part) + rs])
    case Prepare(tid, pair, commit) =>
      if EndCode(Coordination(w), tid, pair.pid, pair.epoch) != NONE then w
      else
        var offsets := EndOffsets(Coordination(w), tid, commit);
        w.(flights := w.flights[pair := Ending(tid, commit, offsets)],
           prepared := if commit then w.prepared + {CurrentTag(w, pair)} else w.prepared,
           staged := w.staged + Listed(Tagged(CurrentTag(w, pair), offsets)))
    case Flush(pair, ok, after) =>
      var f := w.flights[pair];
      w.(store := after,
         flights := if ok then w.flights[pair := Flushed(f.tid, f.commit, f.offsets, f.offsets == [])]
                    else w.flights - {pair},
         attempted := if f.commit then w.attempted + {CurrentTag(w, pair)} else w.attempted)
    case CommitOffsets(pair, n) =>
      var f := w.flights[pair];
      w.(flights := if n == |f.offsets| then w.flights[pair := f.(settled := true)] else w.flights - {pair},
         settled := w.settled + Tagged(CurrentTag(w, pair), f.offsets[..n]))
    case FinishTxn(pair) =>
      w.(calls := w.calls + [CallFinish(w.flights[pair].tid, pair.pid, pair.epoch)], flights := w.flights - {pair},
         serials := w.serials[pair := Serial(w, pair) + 1])
    case PlainProduce(part, payloads, fate) => w.(store := Append(w.store, part, Plain(payloads), fate))
  }

  ghost predicate IsRun(ws: seq<World>, steps: seq<Step>) {
    |ws| == |steps| + 1 && forall i | 0 <= i < |steps| :: Enabled(ws[i], steps[i]) && ws[i + 1] == Next(ws[i], steps[i])
  }

  // ----- What every reachable world keeps -----

  /** A later incarnation of the same producer id has run its InitProducerId to the end. */
  ghost predicate Superseded(w: World, pair: Pair) {
    exists q <- w.aborted :: q.pid == pair.pid && q.epoch > pair.epoch
  }

  ghost predicate FlightsKnown(w: World) {
    forall pair <- w.flights ::
      && pair in Answered(w)
      && (w.flights[pair].Ending? && w.flights[pair].commit ==> CurrentTag(w, pair) in w.prepared)
      && (w.flights[pair].Flushed? && w.flights[pair].commit ==> CurrentTag(w, pair) in w.attempted)
      && (w.flights[pair].Flushed? && !w.flights[pair].settled ==> w.flights[pair].commit)
      && (w.flights[pair].Ending? && !w.flights[pair].commit ==> w.flights[pair].offsets == [])
      && (w.flights[pair].Ending? || w.flights[pair].Flushed? ==>
            forall o <- w.flights[pair].offsets :: Settled(CurrentTag(w, pair), o) in w.staged)
  }

  /** Whatever consumer offset is committed was staged by a transaction whose commit was prepared and attempted. */
  ghost predicate OffsetsCommitted(w: World) {
    forall e <- w.settled :: e in w.staged && e.tag in w.attempted
  }

  ghost predicate BufferedFrom(w: World, k: Key) {
    k in w.store.buffers ==>
      forall i | 0 <= i < |w.store.buffers[k]| ::
        var r := w.store.buffers[k][i];
        r.origin == Some(CurrentTag(w, PairOfKey(k))) && r.place == i && r.stood <= |Log(w.store, k.part)|
  }

  ghost predicate BufferOwned(w: World, k: Key) {
    var pair := PairOfKey(k);
    && pair in Answered(w)
    && (pair in w.flights ==> !w.flights[pair].Aborting? && !w.flights[pair].Flushed?)
    && (pair in w.flights && w.flights[pair].Ending? ==> !Superseded(w, pair))
  }

  ghost predicate BuffersOwned(w: World) {
    forall k <- w.store.buffers :: BufferOwned(w, k) && BufferedFrom(w, k)
  }

  /** Whatever is in a log came from a prepared and attempted commit of its own transaction. */
  ghost predicate LogsCommitted(w: World) {
    forall p <- w.store.logs, r <- w.store.logs[p] :: r.origin.Some? ==> r.origin.value in w.attempted
  }

  ghost predicate InitsAborted(w: World) {
    && (forall pair <- Answered(w) :: pair in w.aborted || (pair in w.flights && w.flights[pair].Aborting?))
    && (forall pair <- w.aborted :: pair in Answered(w))
  }

  /**
   Until its first flush, an unfinished transaction that no later incarnation has superseded still has in the buffers
   exactly what it had accepted.
   */
  ghost predicate AcceptedKept(w: World) {
    && (forall pair: Pair, p: Part :: KeptFor(w, pair, p))
    && (forall a <- w.accepted :: a.0.serial <= Serial(w, a.0.pair))
    && (forall a <- w.accepted, r <- w.accepted[a] :: r.origin == Some(a.0))
  }

  ghost predicate Inv(w: World) {
    FlightsKnown(w) && BuffersOwned(w) && LogsCommitted(w) && InitsAborted(w) && AcceptedKept(w) &&
    OffsetsCommitted(w) && w.attempted <= w.prepared
  }

  lemma {:induction false} StartInv(first: int)
    ensures Inv(Start(first))
  {
  }

  /** What the coordinator's history says after one more call. */
  lemma {:induction false} OneMoreCall(w: World, call: Call)
    ensures var v := w.(calls := w.calls + [call]);
            && Coordination(v) == Apply(Coordination(w), call)
            && Answered(v) == if call.CallInit? then Answered(w) + [PairOf(InitTxn(Coordination(w), call.tid))]
                              else Answered(w)
  {
    assert (w.calls + [call])[..|w.calls|] == w.calls;
  }

  lemma {:induction false} InitIsFresh(w: World, tid: string)
    ensures PairOf(InitTxn(Coordination(w), tid)) !in Answered(w)
  {
    hide After, Issued, CoordInv, IssuedBelow, InitTxn;
    ClaimsAlwaysAgree(w.first, w.calls);
    IssuedStaysBelow(w.first, w.calls);
    InitIssuesFresh(Coordination(w), tid, Answered(w));
  }

  /** One incarnation's buffers on one partition are what its transaction accepted, unless it may have lost them. */
  ghost predicate KeptFor(w: World, pair: Pair, p: Part) {
    CurrentTag(w, pair) in w.attempted || Superseded(w, pair) || (pair in w.flights && w.flights[pair].Flushed?) ||
    Buffered(w.store, KeyOf(pair, p)) == Accepted(w, CurrentTag(w, pair), p)
  }

  lemma {:induction false} InitKeeps(w: World, tid: string)
    requires Inv(w)
    ensures Inv(Next(w, InitProducer(tid)))
  {
    hide After, Issued, InitTxn, Apply, KeptFor, BufferedFrom, Superseded;
    var v, pair := Next(w, InitProducer(tid)), PairOf(InitTxn(Coordination(w), tid));
    OneMoreCall(w, CallInit(tid));
    InitIsFresh(w, tid);
    assert Answered(v) == Answered(w) + [pair];
    assert pair !in w.flights;
    forall k <- v.store.buffers ensures BufferOwned(v, k) && BufferedFrom(v, k) {
      assert BufferOwned(w, k) && BufferedFrom(w, k);
      SameBuffer(w, v, k);
      SameSuperseded(w, v, PairOfKey(k));
    }
    forall q: Pair, p: Part ensures KeptFor(v, q, p) {
      SameKept(w, v, q, p);
    }
  }

  lemma {:induction false} SameBuffer(w: World, v: World, k: Key)
    requires k in w.store.buffers && BufferedFrom(w, k) && Buffered(v.store, k) == Buffered(w.store, k)
    requires |Log(w.store, k.part)| <= |Log(v.store, k.part)| && Serial(v, PairOfKey(k)) == Serial(w, PairOfKey(k))
    ensures BufferedFrom(v, k)
  {
  }

  lemma {:induction false} SameSuperseded(w: World, v: World, pair: Pair)
    requires v.aborted == w.aborted
    ensures Superseded(v, pair) == Superseded(w, pair)
  {
  }

  lemma {:induction false} SameKept(w: World, v: World, pair: Pair, p: Part)
    requires KeptFor(w, pair, p) && w.attempted <= v.attempted && w.aborted <= v.aborted
    requires Buffered(v.store, KeyOf(pair, p)) == Buffered(w.store, KeyOf(pair, p)) && v.accepted == w.accepted
    requires Serial(v, pair) == Serial(w, pair)
    requires pair in w.flights && w.flights[pair].Flushed? ==> pair in v.flights && v.flights[pair].Flushed?
    ensures KeptFor(v, pair, p)
  {
  }

  lemma {:induction false} AbortDrops(s: Store<Rec>, q: Pair, k: Key)
    ensures Buffered(Abort(s, q.pid, q.epoch), k) == if Outdated(k, q.pid, q.epoch) then [] else Buffered(s, k)
  {
  }

  lemma {:induction false} RunAbortKeeps(w: World, q: Pair)
    requires Inv(w) && Enabled(w, RunAbort(q))
    ensures Inv(Next(w, RunAbort(q)))
  {
    hide After, Issued, KeptFor, BufferedFrom;
    var v := Next(w, RunAbort(q));
    forall k <- v.store.buffers ensures BufferOwned(v, k) && BufferedFrom(v, k) {
      assert BufferOwned(w, k) && BufferedFrom(w, k);
      SameBuffer(w, v, k);
    }
    forall pair: Pair, p: Part ensures KeptFor(v, pair, p) {
      AbortKeepsAccepted(w, q, pair, p);
    }
  }

  lemma {:induction false} AbortKeepsAccepted(w: World, q: Pair, pair: Pair, p: Part)
    requires Inv(w) && Enabled(w, RunAbort(q))
    ensures KeptFor(Next(w, RunAbort(q)), pair, p)
  {
    hide After, Issued;
    var k := KeyOf(pair, p);
    AbortDrops(w.store, q, k);
    assert KeptFor(w, pair, p);
    assert k in w.store.buffers ==> BufferOwned(w, k);
    assert PairOfKey(k) == pair;
  }

  lemma {:induction false} InvokeKeeps(w: World, call: Call)
    requires Inv(w) && Enabled(w, Invoke(call))
    ensures Inv(Next(w, Invoke(call)))
  {
    hide After, Issued, Apply, KeptFor, BufferedFrom, Superseded;
    OneMoreCall(w, call);
    SameExceptCalls(w, Next(w, Invoke(call)));
  }

  /** The invariant reads the calls only through the pairs answered. */
  lemma {:induction false} SameExceptCalls(w: World, v: World)
    requires Inv(w) && v == w.(calls := v.calls) && Answered(v) == Answered(w)
    ensures Inv(v)
  {
    hide After, Issued, KeptFor, BufferedFrom, Superseded;
    forall k <- v.store.buffers ensures BufferOwned(v, k) && BufferedFrom(v, k) {
      assert BufferOwned(w, k) && BufferedFrom(w, k);
      SameBuffer(w, v, k);
      SameSuperseded(w, v, PairOfKey(k));
    }
    forall pair: Pair, p: Part ensures KeptFor(v, pair, p) {
      SameKept(w, v, pair, p);
    }
  }

  lemma {:induction false} CheckedIsCurrent(w: World, pair: Pair, p: Part)
    requires ProduceCheck(Coordination(w), pair.pid, pair.epoch, p) == NONE
    ensures Current(Coordination(w), pair) && pair in Answered(w)
  {
    hide After, Issued;
    IssuedStaysBelow(w.first, w.calls);
    var c := Coordination(w);
    assert PairOf(c.txns[c.byProducer[pair.pid]]) == pair;
  }

  lemma {:induction false} EndingIsCurrent(w: World, tid: string, pair: Pair)
    requires Inv(w) && EndCode(Coordination(w), tid, pair.pid, pair.epoch) == NONE
    ensures Current(Coordination(w), pair) && pair in Answered(w) && !Superseded(w, pair)
  {
    hide After, Issued, BuffersOwned, FlightsKnown, AcceptedKept, LogsCommitted;
    IssuedStaysBelow(w.first, w.calls);
    var c := Coordination(w);
    assert PairOf(c.txns[tid]) == pair;
  }

  lemma {:induction false} CheckKeeps(w: World, pair: Pair, p: Part, payloads: seq<bytes>)
    requires Inv(w) && Enabled(w, Check(pair, p, payloads))
    ensures Inv(Next(w, Check(pair, p, payloads)))
  {
    hide After, Issued, KeptFor, BufferedFrom, Superseded, ProduceCheck;
    var v := Next(w, Check(pair, p, payloads));
    if v != w {
      CheckedIsCurrent(w, pair, p);
      forall k <- w.store.buffers ensures BufferOwned(v, k) {
        SameSuperseded(w, v, PairOfKey(k));
      }
      OnlyFlights(w, v);
    }
  }

  /** A step that only takes up or lays down an incarnation's request. */
  lemma {:induction false} OnlyFlights(w: World, v: World)
    requires Inv(w) && w.prepared <= v.prepared
    requires v == w.(flights := v.flights, prepared := v.prepared, staged := v.staged, settled := v.settled)
    requires FlightsKnown(v) && InitsAborted(v) && OffsetsCommitted(v)
    requires forall k <- w.store.buffers :: BufferOwned(v, k)
    requires forall pair: Pair {:trigger pair in w.flights} ::
               pair in w.flights && w.flights[pair].Flushed? && CurrentTag(w, pair) !in w.attempted ==>
               pair in v.flights && v.flights[pair].Flushed?
    ensures Inv(v)
  {
    hide After, Issued, BufferedFrom, Superseded, BufferOwned;
    forall k <- v.store.buffers ensures BufferedFrom(v, k) {
      assert BufferedFrom(w, k);
      SameBuffer(w, v, k);
    }
    forall pair: Pair, p: Part ensures KeptFor(v, pair, p) {
      assert KeptFor(w, pair, p);
      SameSuperseded(w, v, pair);
    }
  }

  lemma {:induction false} PrepareKeeps(w: World, tid: string, pair: Pair, commit: bool)
    requires Inv(w) && Enabled(w, Prepare(tid, pair, commit))
    ensures Inv(Next(w, Prepare(tid, pair, commit)))
  {
    hide After, Issued, KeptFor, BufferedFrom, Superseded, EndCode, FlightsKnown, EndOffsets;
    var v := Next(w, Prepare(tid, pair, commit));
    if v != w {
      EndingIsCurrent(w, tid, pair);
      PrepareFlights(w, tid, pair, commit);
      forall k <- w.store.buffers ensures BufferOwned(v, k) {
        SameSuperseded(w, v, PairOfKey(k));
      }
      OnlyFlights(w, v);
    }
  }

  lemma {:induction false} PrepareFlights(w: World, tid: string, pair: Pair, commit: bool)
    requires FlightsKnown(w) && Enabled(w, Prepare(tid, pair, commit)) && pair in Answered(w)
    ensures FlightsKnown(Next(w, Prepare(tid, pair, commit)))
  {
    hide After, Issued, EndCode;
    var v := Next(w, Prepare(tid, pair, commit));
    if v != w {
      var offsets := EndOffsets(Coordination(w), tid, commit);
      forall o <- offsets ensures Settled(CurrentTag(w, pair), o) in v.staged {
        var i :| 0 <= i < |offsets| && offsets[i] == o;
        assert Tagged(CurrentTag(w, pair), offsets)[i] == Settled(CurrentTag(w, pair), o);
      }
    }
  }

  /** A request given up: the flight ends and nothing else happens. */
  lemma {:induction false} GiveUpKeeps(w: World, pair: Pair)
    requires Inv(w) && pair in w.flights && !w.flights[pair].Aborting?
    requires w.flights[pair].Flushed? ==> w.flights[pair].commit
    ensures Inv(w.(flights := w.flights - {pair}))
  {
    hide After, Issued, KeptFor, BufferedFrom, Superseded;
    var v := w.(flights := w.flights - {pair});
    forall k <- w.store.buffers ensures BufferOwned(v, k) {
      SameSuperseded(w, v, PairOfKey(k));
    }
    OnlyFlights(w, v);
  }

  lemma {:induction false} BufferKeeps(w: World, pair: Pair)
    requires Inv(w) && Enabled(w, BufferTxn(pair, false))
    ensures Inv(Next(w, BufferTxn(pair, false)))
  {
    hide After, Issued, BufferedFrom, Superseded, FlightsKnown, AcceptedKept, LogsCommitted, OffsetsCommitted;
    var v, f := Next(w, BufferTxn(pair, false)), w.flights[pair];
    FewerFlights(w, v);
    assert pair in Answered(w) by { InFlightIsAnswered(w, pair); }
    forall k <- v.store.buffers ensures BufferOwned(v, k) && BufferedFrom(v, k) {
      SameSuperseded(w, v, PairOfKey(k));
      if k == KeyOf(pair, f.part) {
        BufferGrows(w, pair);
      } else {
        assert BufferOwned(w, k) && BufferedFrom(w, k);
        SameBuffer(w, v, k);
      }
    }
    BufferKeepsRest(w, pair);
  }

  lemma {:induction false} BufferKeepsRest(w: World, pair: Pair)
    requires AcceptedKept(w) && LogsCommitted(w) && OffsetsCommitted(w) && Enabled(w, BufferTxn(pair, false))
    ensures var v := Next(w, BufferTxn(pair, false)); AcceptedKept(v) && LogsCommitted(v) && OffsetsCommitted(v)
  {
    hide KeptFor;
    var v := Next(w, BufferTxn(pair, false));
    forall q: Pair, p: Part ensures KeptFor(v, q, p) {
      assert KeptFor(w, q, p);
      BufferKeepsAccepted(w, pair, q, p);
    }
  }

  lemma {:induction false} InFlightIsAnswered(w: World, pair: Pair)
    requires FlightsKnown(w) && pair in w.flights
    ensures pair in Answered(w)
  {
  }

  /** What is known of the requests in flight stays known of those that remain. */
  lemma {:induction false} FewerFlights(w: World, v: World)
    requires FlightsKnown(w) && v.flights.Keys <= w.flights.Keys && forall pair <- v.flights :: v.flights[pair] == w.flights[pair]
    requires v.serials == w.serials && w.prepared <= v.prepared && w.attempted <= v.attempted && w.staged <= v.staged
    requires Answered(v) == Answered(w)
    ensures FlightsKnown(v)
  {
    hide After, Issued;
  }

  lemma {:induction false} BufferGrows(w: World, pair: Pair)
    requires Inv(w) && Enabled(w, BufferTxn(pair, false))
    ensures BufferedFrom(Next(w, BufferTxn(pair, false)), KeyOf(pair, w.flights[pair].part))
  {
    hide After, Issued, AcceptedKept, LogsCommitted, InitsAborted, Superseded;
    var k := KeyOf(pair, w.flights[pair].part);
    assert k in w.store.buffers ==> BufferedFrom(w, k);
    assert PairOfKey(k) == pair;
  }

  lemma {:induction false} BufferKeepsAccepted(w: World, pair: Pair, q: Pair, p: Part)
    requires KeptFor(w, q, p) && Enabled(w, BufferTxn(pair, false))
    ensures KeptFor(Next(w, BufferTxn(pair, false)), q, p)
  {
    SameSuperseded(w, Next(w, BufferTxn(pair, false)), q);
  }

  /** What a plain produce does to a log: it grows, by records of no transaction. */
  lemma {:induction false} PlainGrows(w: World, s: Step, p: Part)
    requires s.PlainProduce? && Enabled(w, s)
    ensures var after := Next(w, s).store;
            && Log(w.store, p) <= Log(after, p) && after.buffers == w.store.buffers
            && (forall r <- Log(after, p) :: r in Log(w.store, p) || r.origin.None?)
            && (forall i | |Log(w.store, p)| <= i < |Log(after, p)| :: Log(after, p)[i].origin.None?)
  {
    var rs, f := Plain(s.payloads), s.fate;
    var after := Append(w.store, s.part, rs, f);
    AppendTook(w.store, s.part, rs, f, p);
    if p == s.part {
      assert Log(after, p) == Log(w.store, p) + rs[f.lost..f.written];
    }
  }

  lemma {:induction false} PlainKeeps(w: World, s: Step)
    requires Inv(w) && s.PlainProduce? && Enabled(w, s)
    ensures Inv(Next(w, s))
  {
    hide After, Issued, KeptFor, BufferedFrom, Superseded, FlightsKnown, Append, Possible;
    var v := Next(w, s);
    FewerFlights(w, v);
    PlainGrows(w, s, s.part);
    forall k <- v.store.buffers ensures BufferOwned(v, k) && BufferedFrom(v, k) {
      assert BufferOwned(w, k) && BufferedFrom(w, k);
      PlainGrows(w, s, k.part);
      SameBuffer(w, v, k);
      SameSuperseded(w, v, PairOfKey(k));
    }
    forall p <- v.store.logs, r <- v.store.logs[p] | r.origin.Some? ensures r.origin.value in v.attempted {
      PlainGrows(w, s, p);
      assert r in Log(v.store, p) && r in w.store.logs[p];
    }
    forall pair: Pair, p: Part ensures KeptFor(v, pair, p) {
      SameKept(w, v, pair, p);
    }
  }

  lemma {:induction false} FinishKeeps(w: World, pair: Pair)
    requires Inv(w) && Enabled(w, FinishTxn(pair))
    ensures Inv(Next(w, FinishTxn(pair)))
  {
    hide After, Issued, Apply, KeptFor, BufferedFrom, Superseded;
    var v := Next(w, FinishTxn(pair));
    OneMoreCall(w, CallFinish(w.flights[pair].tid, pair.pid, pair.epoch));
    assert Answered(v) == Answered(w);
    forall k <- v.store.buffers ensures BufferOwned(v, k) && BufferedFrom(v, k) {
      assert BufferOwned(w, k) && BufferedFrom(w, k);
      assert PairOfKey(k) != pair;
      SameBuffer(w, v, k);
      SameSuperseded(w, v, PairOfKey(k));
    }
    forall q: Pair, p: Part ensures KeptFor(v, q, p) {
      if q == pair {
        NextTransactionEmpty(w, pair, p);
      } else {
        SameKept(w, v, q, p);
      }
    }
  }

  lemma {:induction false} NextTransactionEmpty(w: World, pair: Pair, p: Part)
    requires Inv(w) && Enabled(w, FinishTxn(pair))
    ensures KeptFor(Next(w, FinishTxn(pair)), pair, p)
  {
    hide After, Issued, BufferedFrom, Superseded;
    var k := KeyOf(pair, p);
    assert k in w.store.buffers ==> BufferOwned(w, k);
    assert PairOfKey(k) == pair;
  }

  // ----- The flush -----

  /** What any flush does to a log: it grows, by records of the flushed incarnation's own buffer. */
  lemma {:induction false} FlushGrows(w: World, s: Step, p: Part)
    requires s.Flush? && Enabled(w, s)
    ensures Log(w.store, p) <= Log(s.after, p)
    ensures forall r <- Log(s.after, p) :: r in Log(w.store, p) || r in Buffered(w.store, KeyOf(s.pair, p))
    ensures forall i | |Log(w.store, p)| <= i < |Log(s.after, p)| ::
              Log(s.after, p)[i] in Buffered(w.store, KeyOf(s.pair, p))
    ensures !w.flights[s.pair].commit ==> Log(s.after, p) == Log(w.store, p)
  {
    var k := KeyOf(s.pair, p);
    if w.flights[s.pair].commit {
      var f := CommitFate(w, s, p);
      var took := Buffered(w.store, k)[f.lost..f.written];
      assert Untouched(w.store, s.after, p) || Log(s.after, p) == Log(w.store, p) + took;
    }
  }

  /** What a commit's flush made of one partition: its buffer's fate, or nothing at all. */
  lemma {:induction false} CommitFate(w: World, s: Step, p: Part) returns (f: Fate)
    requires s.Flush? && Enabled(w, s) && w.flights[s.pair].commit
    ensures var k := KeyOf(s.pair, p);
            && f.lost <= f.written <= |Buffered(w.store, k)|
            && (Untouched(w.store, s.after, p) || Took(w.store, s.after, p, Buffered(w.store, k), f))
            && (k !in s.after.buffers ==> f.ok && Took(w.store, s.after, p, Buffered(w.store, k), f))
  {
    hide Took, Untouched;
    var k := Key(s.pair.pid, s.pair.epoch, p);
    var b := Buffered(w.store, k);
    f := Fate(Missing(w.store, s.after, p, b), |b|, p in s.after.torn, true, false);
    if s.ok {
      assert Landed(w.store, s.after, p, b);
    } else {
      assert HalfDone(w.store, s.after, k);
      if k in s.after.buffers && !Untouched(w.store, s.after, p) {
        f :| !f.ok && Took(w.store, s.after, p, w.store.buffers[k], f);
        TookWithin(w.store, s.after, p, b, f);
      }
    }
  }

  lemma {:induction false} TookWithin(s: Store<Rec>, t: Store<Rec>, p: Part, records: seq<Rec>, f: Fate)
    requires Took(s, t, p, records, f)
    ensures f.lost <= f.written <= |records|
  {
  }

  /** What any flush does to a buffer: it keeps it as it was or removes it, and removes none of a newer incarnation. */
  lemma {:induction false} FlushKeepsOrDrops(w: World, s: Step, k: Key)
    requires s.Flush? && Enabled(w, s)
    ensures k in s.after.buffers ==> k in w.store.buffers && s.after.buffers[k] == w.store.buffers[k]
    ensures k in w.store.buffers && !Outdated(k, s.pair.pid, s.pair.epoch) ==> k in s.after.buffers
    ensures s.ok && Outdated(k, s.pair.pid, s.pair.epoch) ==> k !in s.after.buffers
  {
  }

  lemma {:induction false} FlushKeepsLogs(w: World, s: Step)
    requires Inv(w) && s.Flush? && Enabled(w, s)
    ensures LogsCommitted(Next(w, s))
  {
    hide After, Issued, KeptFor, Superseded, Enabled, AcceptedKept, InitsAborted;
    var v := Next(w, s);
    forall p <- v.store.logs, r <- v.store.logs[p] | r.origin.Some? ensures r.origin.value in v.attempted {
      FlushGrows(w, s, p);
      var k := KeyOf(s.pair, p);
      assert r in Log(s.after, p);
      if r in Log(w.store, p) {
        assert r in w.store.logs[p];
      } else {
        assert BufferedFrom(w, k) && PairOfKey(k) == s.pair;
      }
    }
  }

  lemma {:induction false} FlushKeeps(w: World, s: Step)
    requires Inv(w) && s.Flush? && Enabled(w, s)
    ensures Inv(Next(w, s))
  {
    hide After, Issued, KeptFor, BufferedFrom, Superseded, Log, LogsCommitted, FlightsKnown, Committed, CommitFailed, Abort;
    var v := Next(w, s);
    FlushKeepsLogs(w, s);
    FlushKeepsFlights(w, s);
    forall k <- v.store.buffers ensures BufferOwned(v, k) && BufferedFrom(v, k) {
      FlushKeepsOrDrops(w, s, k);
      FlushGrows(w, s, k.part);
      assert BufferOwned(w, k) && BufferedFrom(w, k);
      SameBuffer(w, v, k);
      SameSuperseded(w, v, PairOfKey(k));
    }
    forall q: Pair, p: Part ensures KeptFor(v, q, p) {
      assert KeptFor(w, q, p);
      FlushKeepsAccepted(w, s, q, p);
    }
  }

  lemma {:induction false} FlushKeepsFlights(w: World, s: Step)
    requires FlightsKnown(w) && w.attempted <= w.prepared && s.Flush? && Enabled(w, s)
    ensures FlightsKnown(Next(w, s)) && Next(w, s).attempted <= w.prepared
  {
    hide After, Issued, Committed, CommitFailed, Abort;
  }

  /** A flush touches an older incarnation's buffers only after superseding it. */
  lemma {:induction false} FlushKeepsAccepted(w: World, s: Step, q: Pair, p: Part)
    requires Inv(w) && s.Flush? && Enabled(w, s) && KeptFor(w, q, p)
    ensures KeptFor(Next(w, s), q, p)
  {
    hide After, Issued, LogsCommitted, Log, AcceptedKept, BufferedFrom, Committed, CommitFailed, Abort;
    var v, k := Next(w, s), KeyOf(q, p);
    FlushKeepsOrDrops(w, s, k);
    SameSuperseded(w, v, q);
    if Outdated(k, s.pair.pid, s.pair.epoch) && q != s.pair {
      assert s.pair in w.aborted;
    }
  }

  lemma {:induction false} StepKeepsInv(w: World, s: Step)
    requires Inv(w) && Enabled(w, s)
    ensures Inv(Next(w, s))
  {
    hide Inv, Enabled, Next;
    match s
    case InitProducer(tid) => InitKeeps(w, tid);
    case RunAbort(pair) => RunAbortKeeps(w, pair);
    case Invoke(call) => InvokeKeeps(w, call);
    case Check(pair, part, payloads) => CheckKeeps(w, pair, part, payloads);
    case BufferTxn(pair, refused) => BufferEitherWay(w, pair, refused);
    case Prepare(tid, pair, commit) => PrepareKeeps(w, tid, pair, commit);
    case Flush(pair, ok, after) => FlushKeeps(w, s);
    case CommitOffsets(pair, n) => CommitOffsetsKeeps(w, pair, n);
    case FinishTxn(pair) => FinishKeeps(w, pair);
    case PlainProduce(part, payloads, fate) => PlainKeeps(w, s);
  }

  lemma {:induction false} BufferEitherWay(w: World, pair: Pair, refused: bool)
    requires Inv(w) && Enabled(w, BufferTxn(pair, refused))
    ensures Inv(Next(w, BufferTxn(pair, refused)))
  {
    hide Inv;
    if refused {
      GiveUpKeeps(w, pair);
    } else {
      BufferKeeps(w, pair);
    }
  }

  lemma {:induction false} CommitOffsetsKeeps(w: World, pair: Pair, n: nat)
    requires Inv(w) && Enabled(w, CommitOffsets(pair, n))
    ensures Inv(Next(w, CommitOffsets(pair, n)))
  {
    hide After, Issued, KeptFor, BufferedFrom, Superseded;
    var v := Next(w, CommitOffsets(pair, n));
    forall k <- w.store.buffers ensures BufferOwned(v, k) {
      assert BufferOwned(w, k);
      SameSuperseded(w, v, PairOfKey(k));
    }
    forall e <- v.settled ensures e in v.staged && e.tag in v.attempted {
      if e !in w.settled {
        assert e in Tagged(CurrentTag(w, pair), w.flights[pair].offsets[..n]);
      }
    }
    OnlyFlights(w, v);
  }

  lemma {:induction false} RunInv(ws: seq<World>, steps: seq<Step>, i: nat)
    requires IsRun(ws, steps) && Inv(ws[0]) && i < |ws|
    ensures Inv(ws[i])
  {
    hide Inv, Enabled, Next;
    if i > 0 {
      RunInv(ws, steps, i - 1);
      StepKeepsInv(ws[i - 1], steps[i - 1]);
    }
  }
}
