/**
 The transaction coordinator: per transactional id the current (producer id, epoch) and its open transaction, the
 table of partition claims, and the index from producer id to transactional id.
 */
module TxnCoordinator {
  import opened Collections
  import opened Wrappers

  datatype Part = Part(topic: string, index: int)

  datatype Staged = Staged(part: Part, offset: int)

  datatype Txn = Txn(producerId: int, epoch: int, ongoing: bool, partitions: set<Part>, group: Option<string>,
                     staged: seq<Staged>)

  datatype Coord = Coord(txns: map<string, Txn>, claimed: map<Part, string>, byProducer: map<int, string>, next: int)

  const NONE := 0
  const INVALID_PRODUCER_EPOCH := 47
  const INVALID_TXN_STATE := 48
  const CONCURRENT_TRANSACTIONS := 51

  const I16_MAX := 32767

  function Reset(t: Txn): Txn {
    t.(ongoing := false, partitions := {}, group := None, staged := [])
  }

  function Released(claimed: map<Part, string>, tid: string): map<Part, string> {
    map p | p in claimed && claimed[p] != tid :: claimed[p]
  }

  // ----- What each call does -----

  function InitTxn(c: Coord, tid: string): Txn {
    if tid !in c.txns then Txn(c.next, 0, false, {}, None, [])
    else
      var t := Reset(c.txns[tid]);
      if t.epoch < I16_MAX then t.(epoch := t.epoch + 1) else t.(producerId := c.next, epoch := 0)
  }

  /** A producer id is minted for a new transactional id, and when the epoch is spent. */
  predicate Mints(c: Coord, tid: string) {
    tid !in c.txns || c.txns[tid].epoch >= I16_MAX
  }

  function Init(c: Coord, tid: string): Coord {
    var t := InitTxn(c, tid);
    Coord(c.txns[tid := t],
          if tid in c.txns then Released(c.claimed, tid) else c.claimed,
          c.byProducer[t.producerId := tid],
          if Mints(c, tid) then c.next + 1 else c.next)
  }

  predicate Holds(c: Coord, tid: string, pid: int, epoch: int) {
    tid in c.txns && c.txns[tid].producerId == pid && c.txns[tid].epoch == epoch
  }

  function ProduceCheck(c: Coord, pid: int, epoch: int, part: Part): int {
    if pid !in c.byProducer || !Holds(c, c.byProducer[pid], pid, epoch) then INVALID_PRODUCER_EPOCH
    else
      var t := c.txns[c.byProducer[pid]];
      if !t.ongoing || part !in t.partitions then INVALID_TXN_STATE else NONE
  }

  predicate Clashes(c: Coord, tid: string, parts: seq<Part>) {
    exists p <- parts :: p in c.claimed && c.claimed[p] != tid
  }

  function AddPartitionsCode(c: Coord, tid: string, pid: int, epoch: int, parts: seq<Part>): int {
    if !Holds(c, tid, pid, epoch) then INVALID_PRODUCER_EPOCH
    else if Clashes(c, tid, parts) then CONCURRENT_TRANSACTIONS
    else NONE
  }

  function Members(parts: seq<Part>): set<Part> {
    set p | p in parts
  }

  function Enrolled(c: Coord, tid: string, parts: set<Part>): Coord
    requires tid in c.txns
  {
    var t := c.txns[tid];
    c.(txns := c.txns[tid := t.(ongoing := true, partitions := t.partitions + parts)],
       claimed := c.claimed + (map p | p in parts :: tid))
  }

  function AddPartitions(c: Coord, tid: string, pid: int, epoch: int, parts: seq<Part>): Coord {
    if AddPartitionsCode(c, tid, pid, epoch, parts) != NONE then c
    else Enrolled(c, tid, Members(parts))
  }

  lemma {:induction false} EnrollNone(c: Coord, tid: string)
    requires tid in c.txns
    ensures Enrolled(c, tid, Members([])) == c.(txns := c.txns[tid := c.txns[tid].(ongoing := true)])
  {
    assert c.claimed + (map p | p in Members([]) :: tid) == c.claimed;
    assert c.txns[tid].partitions + Members([]) == c.txns[tid].partitions;
  }

  lemma {:induction false} EnrollOne(c: Coord, tid: string, parts: set<Part>, p: Part)
    requires tid in c.txns
    ensures tid in Enrolled(c, tid, parts).txns
    ensures var e := Enrolled(c, tid, parts);
            var t := e.txns[tid];
            Enrolled(c, tid, parts + {p}) ==
            e.(txns := e.txns[tid := t.(partitions := t.partitions + {p})], claimed := e.claimed[p := tid])
  {
    var t := c.txns[tid];
    assert t.partitions + (parts + {p}) == t.partitions + parts + {p};
    assert c.claimed + (map q | q in parts + {p} :: tid) == (c.claimed + (map q | q in parts :: tid))[p := tid];
  }

  lemma {:induction false} MembersGrow(parts: seq<Part>, i: nat)
    requires i < |parts|
    ensures Members(parts[..i + 1]) == Members(parts[..i]) + {parts[i]}
  {
    assert parts[..i + 1] == parts[..i] + [parts[i]];
  }

  function FenceCode(c: Coord, tid: string, pid: int, epoch: int): int {
    if Holds(c, tid, pid, epoch) then NONE else INVALID_PRODUCER_EPOCH
  }

  function AddOffsets(c: Coord, tid: string, pid: int, epoch: int, group: string): Coord {
    if !Holds(c, tid, pid, epoch) then c
    else c.(txns := c.txns[tid := c.txns[tid].(ongoing := true, group := Some(group))])
  }

  function StageOffsets(c: Coord, tid: string, pid: int, epoch: int, offsets: seq<Staged>): Coord {
    if !Holds(c, tid, pid, epoch) then c
    else c.(txns := c.txns[tid := c.txns[tid].(staged := c.txns[tid].staged + offsets)])
  }

  function EndCode(c: Coord, tid: string, pid: int, epoch: int): int {
    if !Holds(c, tid, pid, epoch) then INVALID_PRODUCER_EPOCH
    else if !c.txns[tid].ongoing then INVALID_TXN_STATE
    else NONE
  }

  function Finish(c: Coord, tid: string, pid: int, epoch: int): Coord {
    if !Holds(c, tid, pid, epoch) then c
    else c.(txns := c.txns[tid := Reset(c.txns[tid])], claimed := Released(c.claimed, tid))
  }

  function Empty(first: int): Coord {
    Coord(map[], map[], map[], first)
  }

  // ----- The calls, in place -----

  datatype EndOutcome = EndOutcome(code: int, committed: bool, partitions: set<Part>, group: Option<string>,
                                   offsets: seq<Staged>)

  class Coordinator {
    var txns: map<string, Txn>
    var claimed: map<Part, string>
    var byProducer: map<int, string>
    var next: int

    ghost function State(): Coord
      reads this
    {
      Coord(txns, claimed, byProducer, next)
    }

    constructor (first: int)
      ensures State() == Empty(first)
    {
      txns, claimed, byProducer, next := map[], map[], map[], first;
    }

    method InitProducerId(tid: string) returns (pid: int, epoch: int)
      modifies this
      ensures State() == Init(old(State()), tid)
      ensures pid == txns[tid].producerId && epoch == txns[tid].epoch
    {
      if tid in txns {
        var t := txns[tid];
        if t.epoch < I16_MAX {
          t := t.(epoch := t.epoch + 1);
        } else {
          t := t.(producerId := next, epoch := 0);
          next := next + 1;
        }
        txns := txns[tid := Reset(t)];
        claimed := Released(claimed, tid);
      } else {
        txns := txns[tid := Txn(next, 0, false, {}, None, [])];
        next := next + 1;
      }
      pid, epoch := txns[tid].producerId, txns[tid].epoch;
      byProducer := byProducer[pid := tid];
    }

    method CheckProduce(pid: int, epoch: int, part: Part) returns (code: int)
      ensures code == ProduceCheck(State(), pid, epoch, part)
    {
      if pid !in byProducer {
        return INVALID_PRODUCER_EPOCH;
      }
      var tid := byProducer[pid];
      if tid !in txns {
        return INVALID_PRODUCER_EPOCH;
      }
      var t := txns[tid];
      if t.producerId != pid || t.epoch != epoch {
        return INVALID_PRODUCER_EPOCH;
      }
      if !t.ongoing || part !in t.partitions {
        return INVALID_TXN_STATE;
      }
      return NONE;
    }

    method AddPartitionsToTxn(tid: string, pid: int, epoch: int, parts: seq<Part>) returns (code: int)
      modifies this
      ensures State() == AddPartitions(old(State()), tid, pid, epoch, parts)
      ensures code == AddPartitionsCode(old(State()), tid, pid, epoch, parts)
    {
      if tid !in txns || txns[tid].producerId != pid || txns[tid].epoch != epoch {
        return INVALID_PRODUCER_EPOCH;
      }
      for i := 0 to |parts|
        invariant forall j | 0 <= j < i :: parts[j] in claimed ==> claimed[parts[j]] == tid
      {
        if parts[i] in claimed && claimed[parts[i]] != tid {
          return CONCURRENT_TRANSACTIONS;
        }
      }
      Enroll(tid, parts);
      return NONE;
    }

    method Enroll(tid: string, parts: seq<Part>)
      requires tid in txns
      modifies this
      ensures State() == Enrolled(old(State()), tid, Members(parts))
    {
      txns := txns[tid := txns[tid].(ongoing := true)];
      EnrollNone(old(State()), tid);
      for i := 0 to |parts|
        invariant tid in old(txns) && State() == Enrolled(old(State()), tid, Members(parts[..i]))
      {
        hide Members, Enrolled;
        EnrollOne(old(State()), tid, Members(parts[..i]), parts[i]);
        MembersGrow(parts, i);
        claimed := claimed[parts[i] := tid];
        txns := txns[tid := txns[tid].(partitions := txns[tid].partitions + {parts[i]})];
      }
      assert parts[..|parts|] == parts;
    }

    method AddOffsetsToTxn(tid: string, pid: int, epoch: int, group: string) returns (code: int)
      modifies this
      ensures State() == AddOffsets(old(State()), tid, pid, epoch, group)
      ensures code == FenceCode(old(State()), tid, pid, epoch)
    {
      if tid !in txns || txns[tid].producerId != pid || txns[tid].epoch != epoch {
        return INVALID_PRODUCER_EPOCH;
      }
      txns := txns[tid := txns[tid].(ongoing := true, group := Some(group))];
      return NONE;
    }

    method StageTxnOffsets(tid: string, pid: int, epoch: int, offsets: seq<Staged>) returns (code: int)
      modifies this
      ensures State() == StageOffsets(old(State()), tid, pid, epoch, offsets)
      ensures code == FenceCode(old(State()), tid, pid, epoch)
    {
      if tid !in txns || txns[tid].producerId != pid || txns[tid].epoch != epoch {
        return INVALID_PRODUCER_EPOCH;
      }
      txns := txns[tid := txns[tid].(staged := txns[tid].staged + offsets)];
      return NONE;
    }

    /** The first half of EndTxn: nothing changes. A commit names the staged offsets, an abort none. */
    method PrepareEnd(tid: string, pid: int, epoch: int, commit: bool) returns (out: EndOutcome)
      ensures out.code == EndCode(State(), tid, pid, epoch) && out.committed == commit
      ensures out.code == NONE ==> out.partitions == txns[tid].partitions
      ensures out.code == NONE && commit ==> out.group == txns[tid].group && out.offsets == txns[tid].staged
      ensures out.code != NONE || !commit ==> out.group == None && out.offsets == []
    {
      if tid !in txns || txns[tid].producerId != pid || txns[tid].epoch != epoch {
        return EndOutcome(INVALID_PRODUCER_EPOCH, commit, {}, None, []);
      }
      var t := txns[tid];
      if !t.ongoing {
        return EndOutcome(INVALID_TXN_STATE, commit, {}, None, []);
      }
      return if commit then EndOutcome(NONE, commit, t.partitions, t.group, t.staged)
             else EndOutcome(NONE, commit, t.partitions, None, []);
    }

    method FinishTxn(tid: string, pid: int, epoch: int)
      modifies this
      ensures State() == Finish(old(State()), tid, pid, epoch)
    {
      if tid in txns && txns[tid].producerId == pid && txns[tid].epoch == epoch {
        txns := txns[tid := Reset(txns[tid])];
        claimed := Released(claimed, tid);
      }
    }
  }

  // ----- What every reachable state keeps -----

  datatype Call =
    | CallInit(tid: string)
    | CallAddPartitions(tid: string, pid: int, epoch: int, parts: seq<Part>)
    | CallAddOffsets(tid: string, pid: int, epoch: int, group: string)
    | CallStageOffsets(tid: string, pid: int, epoch: int, offsets: seq<Staged>)
    | CallFinish(tid: string, pid: int, epoch: int)

  function Apply(c: Coord, call: Call): Coord {
    match call
    case CallInit(tid) => Init(c, tid)
    case CallAddPartitions(tid, pid, epoch, parts) => AddPartitions(c, tid, pid, epoch, parts)
    case CallAddOffsets(tid, pid, epoch, group) => AddOffsets(c, tid, pid, epoch, group)
    case CallStageOffsets(tid, pid, epoch, offsets) => StageOffsets(c, tid, pid, epoch, offsets)
    case CallFinish(tid, pid, epoch) => Finish(c, tid, pid, epoch)
  }

  function After(c: Coord, calls: seq<Call>): Coord {
    if calls == [] then c else Apply(After(c, calls[..|calls| - 1]), calls[|calls| - 1])
  }

  datatype Pair = Pair(pid: int, epoch: int)

  /** The pairs InitProducerId answered, in order. */
  function Issued(c: Coord, calls: seq<Call>): seq<Pair> {
    if calls == [] then []
    else
      var before := calls[..|calls| - 1];
      match calls[|calls| - 1]
      case CallInit(tid) => Issued(c, before) + [PairOf(InitTxn(After(c, before), tid))]
      case _ => Issued(c, before)
  }

  function PairOf(t: Txn): Pair {
    Pair(t.producerId, t.epoch)
  }

  /** The pair is the one its transactional id was last given. */
  ghost predicate Current(c: Coord, pair: Pair) {
    exists tid <- c.txns :: PairOf(c.txns[tid]) == pair
  }

  /** The claim table and the enrolled partitions say the same thing. */
  ghost predicate ClaimsAgree(c: Coord) {
    && (forall p <- c.claimed :: c.claimed[p] in c.txns && p in c.txns[c.claimed[p]].partitions)
    && (forall tid <- c.txns, p <- c.txns[tid].partitions :: p in c.claimed && c.claimed[p] == tid)
  }

  ghost predicate Indexed(c: Coord) {
    && (forall tid <- c.txns :: 0 <= c.txns[tid].epoch <= I16_MAX)
    && (forall tid <- c.txns :: c.txns[tid].producerId in c.byProducer && c.byProducer[c.txns[tid].producerId] == tid)
    && (forall pid <- c.byProducer :: pid < c.next)
  }

  ghost predicate CoordInv(c: Coord) {
    ClaimsAgree(c) && Indexed(c)
  }

  /** Every pair issued so far is older than what its producer id would be issued next. */
  ghost predicate IssuedBelow(c: Coord, issued: seq<Pair>) {
    && (forall pair <- issued :: pair.pid < c.next)
    && (forall tid <- c.txns :: PairOf(c.txns[tid]) in issued)
    && (forall tid <- c.txns, pair <- issued :: pair.pid == c.txns[tid].producerId ==> pair.epoch <= c.txns[tid].epoch)
  }

  lemma {:induction false} InitKeepsInv(c: Coord, tid: string)
    requires CoordInv(c)
    ensures CoordInv(Init(c, tid))
  {
    var d, t := Init(c, tid), InitTxn(c, tid);
    forall other <- d.txns ensures d.byProducer[d.txns[other].producerId] == other {
      if other != tid {
        assert d.txns[other].producerId != t.producerId;
      }
    }
  }

  lemma {:induction false} AddPartitionsKeepsInv(c: Coord, tid: string, pid: int, epoch: int, parts: seq<Part>)
    requires CoordInv(c)
    ensures CoordInv(AddPartitions(c, tid, pid, epoch, parts))
  {
    var d := AddPartitions(c, tid, pid, epoch, parts);
    if AddPartitionsCode(c, tid, pid, epoch, parts) == NONE {
      forall other <- d.txns, p <- d.txns[other].partitions ensures p in d.claimed && d.claimed[p] == other {
        if other != tid {
          assert c.claimed[p] == other;
        }
      }
    }
  }

  lemma {:induction false} FinishKeepsInv(c: Coord, tid: string, pid: int, epoch: int)
    requires CoordInv(c)
    ensures CoordInv(Finish(c, tid, pid, epoch))
  {
  }

  lemma {:induction false} ApplyKeepsInv(c: Coord, call: Call)
    requires CoordInv(c)
    ensures CoordInv(Apply(c, call))
  {
    match call
    case CallInit(tid) => InitKeepsInv(c, tid);
    case CallAddPartitions(tid, pid, epoch, parts) => AddPartitionsKeepsInv(c, tid, pid, epoch, parts);
    case CallAddOffsets(tid, pid, epoch, group) =>
    case CallStageOffsets(tid, pid, epoch, offsets) =>
    case CallFinish(tid, pid, epoch) => FinishKeepsInv(c, tid, pid, epoch);
  }

  /** Whatever the calls, the claim table is exactly the enrolled partitions. */
  lemma {:induction false} ClaimsAlwaysAgree(first: int, calls: seq<Call>)
    ensures CoordInv(After(Empty(first), calls))
    decreases |calls|
  {
    hide Apply;
    if calls != [] {
      var before := calls[..|calls| - 1];
      ClaimsAlwaysAgree(first, before);
      ApplyKeepsInv(After(Empty(first), before), calls[|calls| - 1]);
    }
  }

  /** No partition is ever in two transactions. */
  lemma {:induction false} OneTransactionPerPartition(first: int, calls: seq<Call>, a: string, b: string)
    requires var c := After(Empty(first), calls); a in c.txns && b in c.txns && a != b
    ensures var c := After(Empty(first), calls); c.txns[a].partitions !! c.txns[b].partitions
  {
    hide After, Indexed;
    ClaimsAlwaysAgree(first, calls);
    var c := After(Empty(first), calls);
    forall p <- c.txns[a].partitions ensures p !in c.txns[b].partitions {
      assert c.claimed[p] == a;
    }
  }

  lemma {:induction false} InitIssuesFresh(c: Coord, tid: string, issued: seq<Pair>)
    requires CoordInv(c) && IssuedBelow(c, issued)
    ensures PairOf(InitTxn(c, tid)) !in issued
    ensures IssuedBelow(Init(c, tid), issued + [PairOf(InitTxn(c, tid))])
  {
    var d, t := Init(c, tid), InitTxn(c, tid);
    var all := issued + [PairOf(t)];
    forall other <- d.txns, pair <- all | pair.pid == d.txns[other].producerId
      ensures pair.epoch <= d.txns[other].epoch
    {
      if other != tid {
        assert d.txns[other].producerId != t.producerId;
      }
    }
    forall other <- d.txns ensures PairOf(d.txns[other]) in all {
      if other != tid {
        assert PairOf(c.txns[other]) in issued;
      }
    }
  }

  lemma {:induction false} OthersIssueNothing(c: Coord, call: Call, issued: seq<Pair>)
    requires CoordInv(c) && IssuedBelow(c, issued) && !call.CallInit?
    ensures IssuedBelow(Apply(c, call), issued)
  {
    hide Apply, CoordInv;
    SamePairs(c, call);
    var d := Apply(c, call);
    forall tid <- d.txns ensures PairOf(d.txns[tid]) in issued {
      assert PairOf(c.txns[tid]) in issued;
    }
  }

  lemma {:induction false} SamePairs(c: Coord, call: Call)
    requires !call.CallInit?
    ensures Apply(c, call).txns.Keys == c.txns.Keys && Apply(c, call).next == c.next
    ensures forall tid <- c.txns :: PairOf(Apply(c, call).txns[tid]) == PairOf(c.txns[tid])
  {
  }

  lemma {:induction false} IssuedStaysBelow(first: int, calls: seq<Call>)
    ensures IssuedBelow(After(Empty(first), calls), Issued(Empty(first), calls))
    decreases |calls|
  {
    hide CoordInv;
    if calls != [] {
      var before, call := calls[..|calls| - 1], calls[|calls| - 1];
      var c, issued := After(Empty(first), before), Issued(Empty(first), before);
      IssuedStaysBelow(first, before);
      ClaimsAlwaysAgree(first, before);
      if call.CallInit? {
        InitIssuesFresh(c, call.tid, issued);
      } else {
        OthersIssueNothing(c, call, issued);
      }
    }
  }

  /** No (producer id, epoch) is answered twice, over any sequence of calls and past the epoch's overflow. */
  lemma {:induction false} NeverIssuedTwice(first: int, calls: seq<Call>)
    ensures Distinct(Issued(Empty(first), calls))
    decreases |calls|
  {
    hide CoordInv, Init, InitTxn, IssuedBelow;
    if calls != [] {
      var before, call := calls[..|calls| - 1], calls[|calls| - 1];
      NeverIssuedTwice(first, before);
      if call.CallInit? {
        IssuedStaysBelow(first, before);
        ClaimsAlwaysAgree(first, before);
        InitIssuesFresh(After(Empty(first), before), call.tid, Issued(Empty(first), before));
        FreshLast(Issued(Empty(first), before), PairOf(InitTxn(After(Empty(first), before), call.tid)));
      }
    }
  }

  lemma {:induction false} FreshLast(issued: seq<Pair>, pair: Pair)
    requires Distinct(issued) && pair !in issued
    ensures Distinct(issued + [pair])
  {
  }

  /** A pair that is not current is refused by every call that names it, and changes nothing. */
  lemma {:induction false} StaleRefused(c: Coord, tid: string, pair: Pair, part: Part, parts: seq<Part>, group: string,
                                        offsets: seq<Staged>)
    requires !Current(c, pair)
    ensures ProduceCheck(c, pair.pid, pair.epoch, part) == INVALID_PRODUCER_EPOCH
    ensures AddPartitionsCode(c, tid, pair.pid, pair.epoch, parts) == INVALID_PRODUCER_EPOCH
    ensures FenceCode(c, tid, pair.pid, pair.epoch) == INVALID_PRODUCER_EPOCH
    ensures EndCode(c, tid, pair.pid, pair.epoch) == INVALID_PRODUCER_EPOCH
    ensures AddPartitions(c, tid, pair.pid, pair.epoch, parts) == c
    ensures AddOffsets(c, tid, pair.pid, pair.epoch, group) == c
    ensures StageOffsets(c, tid, pair.pid, pair.epoch, offsets) == c
    ensures Finish(c, tid, pair.pid, pair.epoch) == c
  {
    assert forall t <- c.txns :: PairOf(c.txns[t]) != pair;
  }

  /** A superseded pair is never current again, whatever is called from then on. */
  lemma {:induction false} FencedForever(first: int, calls: seq<Call>, more: seq<Call>, pair: Pair)
    requires pair in Issued(Empty(first), calls) && !Current(After(Empty(first), calls), pair)
    ensures pair in Issued(Empty(first), calls + more) && !Current(After(Empty(first), calls + more), pair)
    decreases |more|
  {
    if more == [] {
      assert calls + more == calls;
    } else {
      var before, call := calls + more[..|more| - 1], more[|more| - 1];
      var c, issued := After(Empty(first), before), Issued(Empty(first), before);
      FencedForever(first, calls, more[..|more| - 1], pair);
      assert (calls + more)[..|calls + more| - 1] == before;
      if call.CallInit? {
        IssuedStaysBelow(first, before);
        ClaimsAlwaysAgree(first, before);
        InitIssuesFresh(c, call.tid, issued);
      }
      StaysStale(c, call, pair);
    }
  }

  lemma {:induction false} StaysStale(c: Coord, call: Call, pair: Pair)
    requires !Current(c, pair) && (call.CallInit? ==> PairOf(InitTxn(c, call.tid)) != pair)
    ensures !Current(Apply(c, call), pair)
  {
    var d := Apply(c, call);
    forall tid <- d.txns ensures PairOf(d.txns[tid]) != pair {
      if tid in c.txns {
        assert PairOf(c.txns[tid]) != pair;
      }
    }
  }
}
