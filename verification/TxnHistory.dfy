/**
 What the coordinator's answers mean, told from the calls made on it: the partitions, the group and the offsets of a
 transaction are those given since its transactional id was last initialised or finished, and every code follows.
 */
module TxnHistory {
  import opened Wrappers
  import opened TxnCoordinator

  // ----- The history of a transactional id -----

  /** This call closes the id's transaction: it is initialised, or finished by the pair that holds it. */
  predicate Closes(c: Coord, call: Call, tid: string) {
    call.tid == tid && (call.CallInit? || (call.CallFinish? && Holds(c, tid, call.pid, call.epoch)))
  }

  /** This call is made by the pair that holds the id. */
  predicate ByHolder(c: Coord, call: Call, tid: string) {
    call.tid == tid && !call.CallInit? && Holds(c, tid, call.pid, call.epoch)
  }

  /** No other transaction has enrolled any of these partitions. */
  predicate Unclaimed(c: Coord, tid: string, parts: seq<Part>) {
    forall other <- c.txns, p <- parts :: other != tid ==> p !in c.txns[other].partitions
  }

  function PartsSince(first: int, calls: seq<Call>, tid: string): set<Part> {
    if calls == [] then {}
    else
      var before, call := calls[..|calls| - 1], calls[|calls| - 1];
      var c, parts := After(Empty(first), before), PartsSince(first, before, tid);
      if Closes(c, call, tid) then {}
      else if ByHolder(c, call, tid) && call.CallAddPartitions? && Unclaimed(c, tid, call.parts) then
        parts + set p | p in call.parts
      else parts
  }

  /** Whether the id has a transaction under way: partitions or a group were added. */
  predicate OpenSince(first: int, calls: seq<Call>, tid: string) {
    if calls == [] then false
    else
      var before, call := calls[..|calls| - 1], calls[|calls| - 1];
      var c, open := After(Empty(first), before), OpenSince(first, before, tid);
      if Closes(c, call, tid) then false
      else
        open || (ByHolder(c, call, tid) &&
                 (call.CallAddOffsets? || (call.CallAddPartitions? && Unclaimed(c, tid, call.parts))))
  }

  /** The offsets staged, in order. */
  function StagedSince(first: int, calls: seq<Call>, tid: string): seq<Staged> {
    if calls == [] then []
    else
      var before, call := calls[..|calls| - 1], calls[|calls| - 1];
      var c, staged := After(Empty(first), before), StagedSince(first, before, tid);
      if Closes(c, call, tid) then []
      else if ByHolder(c, call, tid) && call.CallStageOffsets? then staged + call.offsets
      else staged
  }

  /** The group its offsets are for: the last one named. */
  function GroupSince(first: int, calls: seq<Call>, tid: string): Option<string> {
    if calls == [] then None
    else
      var before, call := calls[..|calls| - 1], calls[|calls| - 1];
      var c, group := After(Empty(first), before), GroupSince(first, before, tid);
      if Closes(c, call, tid) then None
      else if ByHolder(c, call, tid) && call.CallAddOffsets? then Some(call.group)
      else group
  }

  // ----- The coordinator's table is that history -----

  lemma {:induction false} ClashesExact(c: Coord, tid: string, parts: seq<Part>)
    requires ClaimsAgree(c)
    ensures Clashes(c, tid, parts) <==> !Unclaimed(c, tid, parts)
  {
    if p :| p in parts && p in c.claimed && c.claimed[p] != tid {
      assert p in c.txns[c.claimed[p]].partitions;
    }
  }

  /** The id's entry, or an empty one. */
  function EntryOf(c: Coord, tid: string): Txn {
    if tid in c.txns then c.txns[tid] else Txn(0, 0, false, {}, None, [])
  }

  /** This call enrols its partitions. */
  predicate Enrolling(c: Coord, call: Call, tid: string) {
    ByHolder(c, call, tid) && call.CallAddPartitions? && Unclaimed(c, tid, call.parts)
  }

  /** What one call makes of an entry. */
  ghost predicate Stepped(c: Coord, call: Call, tid: string, e: Txn, f: Txn) {
    if Closes(c, call, tid) then f.partitions == {} && !f.ongoing && f.staged == [] && f.group == None
    else
      && f.partitions == e.partitions + (if Enrolling(c, call, tid) then set p | p in call.parts else {})
      && (f.ongoing <==> e.ongoing || Enrolling(c, call, tid) || (ByHolder(c, call, tid) && call.CallAddOffsets?))
      && f.staged == e.staged + (if ByHolder(c, call, tid) && call.CallStageOffsets? then call.offsets else [])
      && f.group == (if ByHolder(c, call, tid) && call.CallAddOffsets? then Some(call.group) else e.group)
  }

  lemma {:induction false} EntryStep(c: Coord, call: Call, tid: string)
    requires ClaimsAgree(c)
    ensures Stepped(c, call, tid, EntryOf(c, tid), EntryOf(Apply(c, call), tid))
  {
    if call.tid != tid || !ByHolder(c, call, tid) {
      SameEntry(c, call, tid);
    } else if call.CallAddPartitions? {
      ClashesExact(c, tid, call.parts);
    }
  }

  lemma {:induction false} SameEntry(c: Coord, call: Call, tid: string)
    requires call.tid != tid || !ByHolder(c, call, tid)
    ensures !Closes(c, call, tid) ==> EntryOf(Apply(c, call), tid) == EntryOf(c, tid)
    ensures Closes(c, call, tid) ==>
              var f := EntryOf(Apply(c, call), tid); f.partitions == {} && !f.ongoing && f.staged == [] && f.group == None
  {
  }

  lemma {:induction false} PartsAreHistory(first: int, calls: seq<Call>, tid: string)
    ensures PartsSince(first, calls, tid) == EntryOf(After(Empty(first), calls), tid).partitions
    decreases |calls|
  {
    hide Apply, Closes, ByHolder, Unclaimed, EntryOf;
    if calls == [] {
      NoEntry(first, calls, tid);
    } else {
      PartsAreHistory(first, calls[..|calls| - 1], tid);
      LastStep(first, calls, tid);
    }
  }

  lemma {:induction false} NoEntry(first: int, calls: seq<Call>, tid: string)
    requires calls == []
    ensures EntryOf(After(Empty(first), calls), tid) == Txn(0, 0, false, {}, None, [])
  {
  }

  lemma {:induction false} LastStep(first: int, calls: seq<Call>, tid: string)
    requires calls != []
    ensures var before, call := calls[..|calls| - 1], calls[|calls| - 1];
            var c := After(Empty(first), before);
            && After(Empty(first), calls) == Apply(c, call)
            && Stepped(c, call, tid, EntryOf(c, tid), EntryOf(Apply(c, call), tid))
  {
    hide Apply, Closes, ByHolder, Unclaimed, EntryOf, Indexed, ClaimsAgree;
    ClaimsAlwaysAgree(first, calls[..|calls| - 1]);
    EntryStep(After(Empty(first), calls[..|calls| - 1]), calls[|calls| - 1], tid);
  }

  lemma {:induction false} OpenIsHistory(first: int, calls: seq<Call>, tid: string)
    ensures OpenSince(first, calls, tid) <==> EntryOf(After(Empty(first), calls), tid).ongoing
    decreases |calls|
  {
    hide Apply, Closes, ByHolder, Unclaimed, EntryOf;
    if calls == [] {
      NoEntry(first, calls, tid);
    } else {
      OpenIsHistory(first, calls[..|calls| - 1], tid);
      LastStep(first, calls, tid);
    }
  }

  lemma {:induction false} StagedIsHistory(first: int, calls: seq<Call>, tid: string)
    ensures StagedSince(first, calls, tid) == EntryOf(After(Empty(first), calls), tid).staged
    decreases |calls|
  {
    hide Apply, Closes, ByHolder, Unclaimed, EntryOf;
    if calls == [] {
      NoEntry(first, calls, tid);
    } else {
      StagedIsHistory(first, calls[..|calls| - 1], tid);
      LastStep(first, calls, tid);
    }
  }

  lemma {:induction false} GroupIsHistory(first: int, calls: seq<Call>, tid: string)
    ensures GroupSince(first, calls, tid) == EntryOf(After(Empty(first), calls), tid).group
    decreases |calls|
  {
    hide Apply, Closes, ByHolder, Unclaimed, EntryOf;
    if calls == [] {
      NoEntry(first, calls, tid);
    } else {
      GroupIsHistory(first, calls[..|calls| - 1], tid);
      LastStep(first, calls, tid);
    }
  }

  // ----- The codes -----

  lemma {:induction false} EntryFacts(c: Coord, tid: string)
    requires tid in c.txns
    ensures EntryOf(c, tid) == c.txns[tid]
  {
  }

  /**
   Whatever was called before, produce_check answers 0 exactly when the pair is held by a transactional id that has
   enrolled the partition since its transaction opened, 47 exactly when no id holds the pair, and else 48.
   */
  lemma {:induction false} CheckExact(first: int, calls: seq<Call>, pid: int, epoch: int, part: Part)
    ensures var c := After(Empty(first), calls);
            var code := ProduceCheck(c, pid, epoch, part);
            && (code == 0 <==> exists tid :: Holds(c, tid, pid, epoch) && part in PartsSince(first, calls, tid))
            && (code == 47 <==> !Current(c, Pair(pid, epoch)))
            && (code == 0 || code == 47 || code == 48)
  {
    hide After, PartsSince, OpenSince;
    ClaimsAlwaysAgree(first, calls);
    var c := After(Empty(first), calls);
    forall tid ensures part in PartsSince(first, calls, tid) <==> tid in c.txns && part in c.txns[tid].partitions {
      PartsAreHistory(first, calls, tid);
    }
    OpenIfEnrolled(first, calls);
    if Current(c, Pair(pid, epoch)) {
      var tid :| tid in c.txns && PairOf(c.txns[tid]) == Pair(pid, epoch);
      assert c.byProducer[pid] == tid && Holds(c, tid, pid, epoch);
    }
    if tid :| Holds(c, tid, pid, epoch) {
      assert PairOf(c.txns[tid]) == Pair(pid, epoch);
    }
  }

  lemma {:induction false} OpenIfEnrolled(first: int, calls: seq<Call>)
    ensures forall tid <- After(Empty(first), calls).txns ::
              var t := After(Empty(first), calls).txns[tid]; t.partitions != {} ==> t.ongoing
    decreases |calls|
  {
    if calls != [] {
      OpenIfEnrolled(first, calls[..|calls| - 1]);
    }
  }

  /**
   AddPartitionsToTxn answers 0 exactly when its pair holds the id and no other transaction has one of the partitions,
   47 exactly when the pair does not hold it; EndTxn answers 0 exactly when the pair holds the id and a transaction was
   opened, 47 exactly when it does not hold it. The remaining answers are 51 and 48.
   */
  lemma {:induction false} CodesExact(first: int, calls: seq<Call>, tid: string, pid: int, epoch: int, parts: seq<Part>)
    ensures var c := After(Empty(first), calls);
            var add, end := AddPartitionsCode(c, tid, pid, epoch, parts), EndCode(c, tid, pid, epoch);
            && (add == 0 <==> Holds(c, tid, pid, epoch) && Unclaimed(c, tid, parts))
            && (add == 47 <==> !Holds(c, tid, pid, epoch)) && (add == 0 || add == 47 || add == 51)
            && (end == 0 <==> Holds(c, tid, pid, epoch) && OpenSince(first, calls, tid))
            && (end == 47 <==> !Holds(c, tid, pid, epoch)) && (end == 0 || end == 47 || end == 48)
  {
    hide After, OpenSince, Unclaimed, Clashes;
    ClaimsAlwaysAgree(first, calls);
    var c := After(Empty(first), calls);
    ClashesExact(c, tid, parts);
    OpenIsHistory(first, calls, tid);
  }

  /**
   InitProducerId keeps the producer id and takes the next epoch until the epoch is spent; then, and for a new id, it
   takes a new producer id at epoch 0. The pair held before is current no more, and the transaction is closed.
   */
  lemma {:induction false} InitExact(first: int, calls: seq<Call>, tid: string)
    ensures var c := After(Empty(first), calls);
            var d := Init(c, tid);
            && tid in d.txns && !OpenSince(first, calls + [CallInit(tid)], tid)
            && (if tid in c.txns && c.txns[tid].epoch < 32767 then
                  PairOf(d.txns[tid]) == Pair(c.txns[tid].producerId, c.txns[tid].epoch + 1) && d.next == c.next
                else PairOf(d.txns[tid]) == Pair(c.next, 0) && d.next == c.next + 1)
            && (tid in c.txns ==> !Current(d, PairOf(c.txns[tid])))
            && (forall other <- c.txns :: other != tid ==> d.txns[other] == c.txns[other])
  {
    hide After;
    ClaimsAlwaysAgree(first, calls);
    assert (calls + [CallInit(tid)])[..|calls|] == calls;
    var c := After(Empty(first), calls);
    if tid in c.txns {
      forall other <- Init(c, tid).txns ensures PairOf(Init(c, tid).txns[other]) != PairOf(c.txns[tid]) {
        assert other != tid ==> c.byProducer[c.txns[other].producerId] == other;
      }
    }
  }
}
