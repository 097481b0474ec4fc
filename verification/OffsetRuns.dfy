/**
 Whole lives of the offset store: commits, batch commits, replacements, compactions, crashes at any
 point of any of them, and reopenings that may crash themselves.
 */
module OffsetRuns {
  import opened Wrappers
  import opened Bytes
  import opened OffsetLog
  import opened FileOffsets

  /** One change a caller asked for: a put, or the replacement of the whole map. */
  datatype Change = One(put: Put) | Replacement(offsets: map<Group, nat>)

  function Changed(m: map<Group, nat>, c: Change): map<Group, nat> {
    match c
    case One(p) => m[p.group := p.offset]
    case Replacement(offsets) => offsets
  }

  /** The map after a history of changes. */
  function History(changes: seq<Change>): map<Group, nat>
    decreases |changes|
  {
    if changes == [] then map[] else Changed(History(changes[..|changes| - 1]), changes[|changes| - 1])
  }

  function Ones(puts: seq<Put>): (r: seq<Change>)
    ensures |r| == |puts|
  {
    seq(|puts|, i requires 0 <= i < |puts| => One(puts[i]))
  }

  /** An operation, with the order a rewrite writes the groups in. */
  datatype Op = Puts(puts: seq<Put>, listing: seq<Put>) | Replace(offsets: map<Group, nat>, listing: seq<Put>)

  ghost predicate Allowed(c: Codec, s: Store, op: Op) {
    match op
    case Puts(puts, listing) => AllStorable(c, puts) && Snapshot(listing, Apply(s.offsets, puts))
    case Replace(offsets, listing) => StorableMap(c, offsets) && Snapshot(listing, offsets)
  }

  function Done(c: Codec, s: Store, op: Op): Store {
    match op
    case Puts(puts, listing) => Committed(c, s, puts, listing)
    case Replace(offsets, listing) => Rewritten(c, s, offsets, listing)
  }

  function Issues(op: Op): seq<Change> {
    match op
    case Puts(puts, _) => Ones(puts)
    case Replace(offsets, _) => [Replacement(offsets)]
  }

  /** Every disk state the operation passes through, from the one it starts in. */
  function Trace(c: Codec, s: Store, op: Op): seq<Disk> {
    [s.disk] +
    match op
    case Puts(puts, listing) => CommitTrace(c, s, puts, listing)
    case Replace(_, listing) => RewriteTrace(s.disk, EncodeAll(c, listing))
  }

  /** A store in service, or a crashed one of which only the log is left. */
  datatype World = Up(store: Store) | Down(left: bytes)

  /** The world, the changes issued and still possible, and how many of them were acknowledged. */
  datatype Sys = Sys(world: World, issued: seq<Change>, acked: nat)

  datatype Event =
    | Perform(op: Op)                              // completes and is acknowledged
    | CrashDuring(op: Op, at: nat, left: bytes)    // dies in the state numbered `at`
    | Reopen(kept: nat)                            // recovers the first `kept` issued changes
    | CrashReopening(again: bytes)                 // dies while the torn tail is being cut off

  ghost predicate Enabled(c: Codec, s: Sys, e: Event) {
    match e
    case Perform(op) => s.world.Up? && Allowed(c, s.world.store, op)
    case CrashDuring(op, at, left) =>
      && s.world.Up? && Allowed(c, s.world.store, op)
      && at < |Trace(c, s.world.store, op)| && CrashesTo(Trace(c, s.world.store, op)[at], left)
    case Reopen(kept) =>
      && s.world.Down? && s.acked <= kept <= |s.issued|
      && Opened(c, s.world.left).offsets == History(s.issued[..kept])
    case CrashReopening(again) =>
      && s.world.Down?
      && var r := Replay(c, s.world.left);
         r.intact <= |s.world.left| &&
         CrashesTo(Truncated(Disk(s.world.left, |s.world.left|, None, None), r.intact), again)
  }

  ghost function Next(c: Codec, s: Sys, e: Event): Sys
    requires Enabled(c, s, e)
  {
    match e
    case Perform(op) =>
      Sys(Up(Done(c, s.world.store, op)), s.issued + Issues(op), |s.issued + Issues(op)|)
    case CrashDuring(op, at, left) => Sys(Down(left), s.issued + Issues(op), s.acked)
    case Reopen(kept) => Sys(Up(Opened(c, s.world.left)), s.issued[..kept], kept)
    case CrashReopening(again) => s.(world := Down(again))
  }

  ghost predicate IsRun(c: Codec, states: seq<Sys>, events: seq<Event>) {
    && |states| == |events| + 1
    && states[0] == Sys(Down([]), [], 0)
    && forall i :: 0 <= i < |events| ==> Enabled(c, states[i], events[i]) && states[i + 1] == Next(c, states[i], events[i])
  }

  /** The log left by a crash holds a prefix of the issued changes that includes every acknowledged one. */
  ghost predicate HoldsPrefix(c: Codec, s: Sys, left: bytes) {
    exists n :: s.acked <= n <= |s.issued| && Replay(c, left).offsets == History(s.issued[..n])
  }

  ghost predicate Inv(c: Codec, s: Sys) {
    && s.acked <= |s.issued|
    && match s.world
       case Up(store) => Live(c, store) && store.offsets == History(s.issued) && s.acked == |s.issued|
       case Down(left) => HoldsPrefix(c, s, left)
  }

  lemma {:induction false} HistoryOnes(issued: seq<Change>, puts: seq<Put>)
    ensures History(issued + Ones(puts)) == Apply(History(issued), puts)
    decreases |puts|
  {
    if puts == [] {
      assert issued + Ones(puts) == issued;
    } else {
      var n := |puts| - 1;
      HistoryOnes(issued, puts[..n]);
      var all := issued + Ones(puts);
      assert all[..|all| - 1] == issued + Ones(puts[..n]);
      assert puts == puts[..n] + [puts[n]];
      ApplyAppend(History(issued), puts[..n], [puts[n]]);
    }
  }

  lemma {:induction false} PerformKeepsInv(c: Codec, s: Sys, op: Op)
    requires Inv(c, s) && Enabled(c, s, Perform(op))
    ensures Inv(c, Next(c, s, Perform(op)))
  {
    hide Live, Replay;
    match op
    case Puts(puts, listing) =>
      CommittedLive(c, s.world.store, puts, listing);
      HistoryOnes(s.issued, puts);
    case Replace(offsets, listing) =>
      RewriteRecovers(c, s.world.store, offsets, listing, 0);
      assert (s.issued + [Replacement(offsets)])[..|s.issued|] == s.issued;
  }

  lemma {:induction false} CrashKeepsInv(c: Codec, s: Sys, op: Op, at: nat, left: bytes)
    requires Inv(c, s) && Enabled(c, s, CrashDuring(op, at, left))
    ensures HoldsPrefix(c, Next(c, s, CrashDuring(op, at, left)), left)
  {
    hide Live, Replay, CrashesTo, CommitTrace, RewriteTrace, EncodeAll, History, AllStorable, StorableMap, Snapshot, Ones;
    var store, all := s.world.store, s.issued + Issues(op);
    var prefix := |s.issued|;
    assert all[..prefix] == s.issued;
    if at == 0 {
      LiveRecovers(c, store);
    } else {
      match op
      case Puts(puts, listing) =>
        var n := CrashInPuts(c, store, s.issued, puts, listing, at - 1, left);
        prefix := prefix + n;
      case Replace(offsets, listing) =>
        var n := CrashInReplace(c, store, s.issued, offsets, listing, at - 1, left);
        prefix := prefix + n;
    }
    assert Replay(c, left).offsets == History(all[..prefix]);
  }

  lemma {:induction false} CrashInPuts(c: Codec, store: Store, issued: seq<Change>, puts: seq<Put>, listing: seq<Put>,
                                       i: nat, left: bytes) returns (n: nat)
    requires Live(c, store) && store.offsets == History(issued)
    requires AllStorable(c, puts) && Snapshot(listing, Apply(store.offsets, puts))
    requires i < |CommitTrace(c, store, puts, listing)| && CrashesTo(CommitTrace(c, store, puts, listing)[i], left)
    ensures n <= |puts| && Replay(c, left).offsets == History((issued + Ones(puts))[..|issued| + n])
  {
    hide Live, Replay, CrashesTo, CommitTrace, History, AllStorable, Snapshot;
    CommitRecovers(c, store, puts, listing, i);
    n :| 0 <= n <= |puts| && Replay(c, left).offsets == Apply(store.offsets, puts[..n]);
    OnesPrefix(issued, puts, n);
    HistoryOnes(issued, puts[..n]);
  }

  lemma {:induction false} CrashInReplace(c: Codec, store: Store, issued: seq<Change>, offsets: map<Group, nat>,
                                          listing: seq<Put>, i: nat, left: bytes) returns (n: nat)
    requires Live(c, store) && store.offsets == History(issued) && StorableMap(c, offsets) && Snapshot(listing, offsets)
    requires i < |RewriteTrace(store.disk, EncodeAll(c, listing))|
    requires CrashesTo(RewriteTrace(store.disk, EncodeAll(c, listing))[i], left)
    ensures n <= 1 && Replay(c, left).offsets == History((issued + [Replacement(offsets)])[..|issued| + n])
  {
    hide Live, Replay, CrashesTo, RewriteTrace, EncodeAll, StorableMap, Snapshot;
    RewriteLength(store.disk, EncodeAll(c, listing));
    RewriteRecovers(c, store, offsets, listing, i);
    var all := issued + [Replacement(offsets)];
    assert all[..|issued|] == issued && all[..|issued| + 1] == all;
    n := if Replay(c, left).offsets == store.offsets then 0 else 1;
  }

  lemma {:induction false} OnesPrefix(issued: seq<Change>, puts: seq<Put>, n: nat)
    requires n <= |puts|
    ensures |issued| + n <= |issued + Ones(puts)| && (issued + Ones(puts))[..|issued| + n] == issued + Ones(puts[..n])
  {
    assert Ones(puts)[..n] == Ones(puts[..n]);
  }

  lemma {:induction false} RewriteLength(d: Disk, b: bytes)
    ensures |RewriteTrace(d, b)| == 3
  {
  }

  lemma {:induction false} StepKeepsInv(c: Codec, s: Sys, e: Event)
    requires Inv(c, s) && Enabled(c, s, e)
    ensures Inv(c, Next(c, s, e))
  {
    hide Live, Replay, CrashesTo;
    match e
    case Perform(op) => PerformKeepsInv(c, s, op);
    case CrashDuring(op, at, left) => CrashKeepsInv(c, s, op, at, left);
    case Reopen(kept) => OpenedLive(c, s.world.left);
    case CrashReopening(again) =>
      RepairRecovers(c, s.world.left, again);
      var n :| s.acked <= n <= |s.issued| && Replay(c, s.world.left).offsets == History(s.issued[..n]);
      assert Replay(c, again).offsets == History(s.issued[..n]);
  }

  lemma {:induction false} RunInv(c: Codec, states: seq<Sys>, events: seq<Event>, i: nat)
    requires IsRun(c, states, events) && i < |states|
    ensures Inv(c, states[i])
    decreases i
  {
    if i == 0 {
      ParseEmpty(c);
      assert Replay(c, []).offsets == History(states[0].issued[..0]);
    } else {
      RunInv(c, states, events, i - 1);
      StepKeepsInv(c, states[i - 1], events[i - 1]);
    }
  }

  /**
   However the store has lived and wherever it died, reopening succeeds and recovers the map after a
   prefix of the issued changes that contains every acknowledged one.
   */
  lemma {:induction false} ReopenRecoversAcknowledged(c: Codec, states: seq<Sys>, events: seq<Event>, i: nat)
    returns (kept: nat)
    requires IsRun(c, states, events) && i < |states| && states[i].world.Down?
    ensures states[i].acked <= kept <= |states[i].issued|
    ensures Opened(c, states[i].world.left).offsets == History(states[i].issued[..kept])
    ensures Live(c, Opened(c, states[i].world.left))
  {
    RunInv(c, states, events, i);
    var s := states[i];
    kept :| s.acked <= kept <= |s.issued| && Replay(c, s.world.left).offsets == History(s.issued[..kept]);
    OpenedLive(c, s.world.left);
  }

  /** While the store is up, it serves exactly the history, and its log replays to it. */
  lemma {:induction false} ServesHistory(c: Codec, states: seq<Sys>, events: seq<Event>, i: nat)
    requires IsRun(c, states, events) && i < |states| && states[i].world.Up?
    ensures states[i].world.store.offsets == History(states[i].issued)
    ensures Replay(c, states[i].world.store.disk.log).offsets == History(states[i].issued)
  {
    RunInv(c, states, events, i);
  }

  lemma {:induction false} AcknowledgedStep(c: Codec, s: Sys, e: Event)
    requires Inv(c, s) && Enabled(c, s, e)
    ensures var t := Next(c, s, e);
            s.acked <= t.acked <= |t.issued| && s.acked <= |s.issued| && t.issued[..s.acked] == s.issued[..s.acked]
  {
    hide Live, HoldsPrefix, Trace, CrashesTo, Opened, History, Done, Replay;
  }

  /** An acknowledged change stays in the history for good. */
  lemma {:induction false} AcknowledgedStays(c: Codec, states: seq<Sys>, events: seq<Event>, i: nat, j: nat)
    requires IsRun(c, states, events) && i <= j < |states|
    ensures states[i].acked <= |states[i].issued| && states[i].acked <= states[j].acked <= |states[j].issued|
    ensures states[j].issued[..states[i].acked] == states[i].issued[..states[i].acked]
    decreases j
  {
    hide Inv, Enabled, Next;
    RunInv(c, states, events, i);
    AcknowledgedIssued(c, states[i]);
    if i < j {
      AcknowledgedStays(c, states, events, i, j - 1);
      RunInv(c, states, events, j - 1);
      AcknowledgedStep(c, states[j - 1], events[j - 1]);
      ShorterPrefix(states[j].issued, states[j - 1].issued, states[j - 1].acked, states[i].acked);
    }
  }

  lemma {:induction false} AcknowledgedIssued(c: Codec, s: Sys)
    requires Inv(c, s)
    ensures s.acked <= |s.issued|
  {
  }

  lemma {:induction false} ShorterPrefix<T>(a: seq<T>, b: seq<T>, m: nat, n: nat)
    requires n <= m <= |a| && m <= |b| && a[..m] == b[..m]
    ensures a[..n] == b[..n]
  {
    assert a[..n] == a[..m][..n];
  }
}
