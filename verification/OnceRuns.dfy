/**
 Whole runs of the effectively-once gate: at-most-once delivery, the shape of what was delivered,
 independence of the garbage-collection lag, and recovery from checkpoints.
 */
module OnceRuns {
  import opened Collections
  import opened OnceGate

  datatype Input = Input(stream: Stream, sn: nat, key: Key)

  /** The gate after a sequence of inputs, from any sound starting gate. */
  ghost function Run(g: Gate, lag: nat, inputs: seq<Input>): (r: Gate)
    requires SoundGate(g)
    ensures SoundGate(r)
    decreases |inputs|
  {
    if inputs == [] then g
    else
      var last := inputs[|inputs| - 1];
      Admitted(Run(g, lag, inputs[..|inputs| - 1]), last.stream, last.sn, last.key, lag)
  }

  /** What the gate answers to the input at position i. */
  ghost function Answer(g: Gate, lag: nat, inputs: seq<Input>, i: nat): Disposition
    requires SoundGate(g) && i < |inputs|
  {
    Decide(StateOf(Run(g, lag, inputs[..i]), inputs[i].stream), inputs[i].sn, inputs[i].key)
  }

  /** The sequence numbers a run has delivered on one stream. */
  ghost function DeliveredOn(g: Gate, lag: nat, inputs: seq<Input>, stream: Stream): set<nat>
    requires SoundGate(g)
  {
    set i | 0 <= i < |inputs| && inputs[i].stream == stream && Answer(g, lag, inputs, i) == Delivered
      :: inputs[i].sn
  }

  const EMPTY: Gate := map[]

  // ----- At most once, and what has been delivered -----

  lemma {:induction false} AnswerPrefix(g: Gate, lag: nat, inputs: seq<Input>, n: nat, i: nat)
    requires SoundGate(g) && i < n <= |inputs|
    ensures Answer(g, lag, inputs[..n], i) == Answer(g, lag, inputs, i)
  {
    assert inputs[..n][..i] == inputs[..i];
  }

  /** Unfold a run at its last input. */
  lemma {:induction false} RunLast(g: Gate, lag: nat, inputs: seq<Input>, stream: Stream)
    requires SoundGate(g) && inputs != []
    ensures var n := |inputs| - 1;
      var before, last := StateOf(Run(g, lag, inputs[..n]), stream), inputs[n];
      && Sound(before)
      && StateOf(Run(g, lag, inputs), stream) ==
           (if last.stream == stream then AdmitState(before, last.sn, last.key, lag) else before)
      && (last.stream == stream ==> Answer(g, lag, inputs, n) == Decide(before, last.sn, last.key))
      && DeliveredOn(g, lag, inputs, stream) ==
           DeliveredOn(g, lag, inputs[..n], stream) +
           (if last.stream == stream && Answer(g, lag, inputs, n) == Delivered then {last.sn} else {})
  {
    hide AdmitState, Sound, Decide;
    var n := |inputs| - 1;
    SoundState(Run(g, lag, inputs[..n]), stream);
    forall i | 0 <= i < n ensures Answer(g, lag, inputs[..n], i) == Answer(g, lag, inputs, i) {
      AnswerPrefix(g, lag, inputs, n, i);
    }
    DeliveredSplit(g, lag, inputs, stream);
  }

  lemma {:induction false} DeliveredSplit(g: Gate, lag: nat, inputs: seq<Input>, stream: Stream)
    requires SoundGate(g) && inputs != []
    ensures var n := |inputs| - 1;
      DeliveredOn(g, lag, inputs, stream) ==
        DeliveredOn(g, lag, inputs[..n], stream) +
        (if inputs[n].stream == stream && Answer(g, lag, inputs, n) == Delivered then {inputs[n].sn} else {})
  {
    hide Answer;
    var n := |inputs| - 1;
    var all, init := DeliveredOn(g, lag, inputs, stream), DeliveredOn(g, lag, inputs[..n], stream);
    forall i | 0 <= i < n ensures Answer(g, lag, inputs[..n], i) == Answer(g, lag, inputs, i) {
      AnswerPrefix(g, lag, inputs, n, i);
    }
    forall x | x in init ensures x in all {
      var i :| 0 <= i < n && inputs[..n][i].stream == stream &&
        Answer(g, lag, inputs[..n], i) == Delivered && inputs[..n][i].sn == x;
      assert inputs[i].sn == x;
    }
    forall x | x in all
      ensures x in init || (inputs[n].stream == stream && Answer(g, lag, inputs, n) == Delivered && x == inputs[n].sn)
    {
      var i :| 0 <= i < |inputs| && inputs[i].stream == stream &&
        Answer(g, lag, inputs, i) == Delivered && inputs[i].sn == x;
      if i < n {
        assert inputs[..n][i].sn == x;
      }
    }
  }

  /** Delivered numbers are parked above the watermark or lie below it. */
  ghost predicate Accounts(st: StreamState, delivered: set<nat>) {
    && (forall s :: s in st.ahead ==> s in delivered)
    && (forall s :: s in delivered ==> s in st.ahead || s < st.lowWatermark)
  }

  lemma {:induction false} AdmitAccounts(st: StreamState, sn: nat, key: Key, lag: nat, delivered: set<nat>)
    requires Sound(st) && Accounts(st, delivered)
    ensures Decide(st, sn, key) == Delivered ==> sn !in delivered
    ensures Accounts(AdmitState(st, sn, key, lag),
              if Decide(st, sn, key) == Delivered then delivered + {sn} else delivered)
  {
    hide Advance, Collect;
    if Decide(st, sn, key) == Delivered {
      AdvanceParked(FloorOf(st), sn);
    }
  }

  lemma {:induction false} RunAccounts(lag: nat, inputs: seq<Input>, stream: Stream)
    ensures Accounts(StateOf(Run(EMPTY, lag, inputs), stream), DeliveredOn(EMPTY, lag, inputs, stream))
    decreases |inputs|
  {
    hide Sound, AdmitState, Decide, DeliveredOn, Answer, Accounts;
    if inputs == [] {
      EmptyRun(lag, stream);
    } else {
      var n := |inputs| - 1;
      RunAccounts(lag, inputs[..n], stream);
      RunLast(EMPTY, lag, inputs, stream);
      if inputs[n].stream == stream {
        AdmitAccounts(StateOf(Run(EMPTY, lag, inputs[..n]), stream), inputs[n].sn, inputs[n].key, lag,
          DeliveredOn(EMPTY, lag, inputs[..n], stream));
      }
      assert DeliveredOn(EMPTY, lag, inputs[..n], stream) + {} == DeliveredOn(EMPTY, lag, inputs[..n], stream);
    }
  }

  lemma {:induction false} EmptyRun(lag: nat, stream: Stream)
    ensures Accounts(StateOf(Run(EMPTY, lag, []), stream), DeliveredOn(EMPTY, lag, [], stream))
  {
  }

  /** A (stream, sequence number) is delivered at most once, whatever the keys, the lag or the sealing. */
  lemma {:induction false} AtMostOnce(lag: nat, inputs: seq<Input>, i: nat, j: nat)
    requires i < j < |inputs|
    requires inputs[i].stream == inputs[j].stream && inputs[i].sn == inputs[j].sn
    requires Answer(EMPTY, lag, inputs, i) == Delivered
    ensures Answer(EMPTY, lag, inputs, j) == Duplicate
  {
    var stream := inputs[j].stream;
    RunAccounts(lag, inputs[..j], stream);
    AnswerPrefix(EMPTY, lag, inputs, j, i);
    assert inputs[..j][i].sn in DeliveredOn(EMPTY, lag, inputs[..j], stream);
    SoundState(Run(EMPTY, lag, inputs[..j]), stream);
    AdmitAccounts(StateOf(Run(EMPTY, lag, inputs[..j]), stream), inputs[j].sn, inputs[j].key, lag,
      DeliveredOn(EMPTY, lag, inputs[..j], stream));
  }

  /** An admission that passes a gap because the horizon overflowed. */
  ghost predicate SealsGap(st: StreamState, sn: nat, key: Key) {
    Decide(st, sn, key) == Delivered && sn != st.lowWatermark && |st.ahead + {sn}| > MAX_REORDER_HORIZON
  }

  ghost predicate NoGapSealed(lag: nat, inputs: seq<Input>, stream: Stream) {
    forall i :: 0 <= i < |inputs| && inputs[i].stream == stream ==>
      !SealsGap(StateOf(Run(EMPTY, lag, inputs[..i]), stream), inputs[i].sn, inputs[i].key)
  }

  lemma {:induction false} AdmitContiguous(st: StreamState, sn: nat, key: Key, lag: nat, delivered: set<nat>,
                                           after: set<nat>)
    requires Sound(st) && !SealsGap(st, sn, key)
    requires forall s :: 0 <= s < st.lowWatermark ==> s in delivered
    requires forall s :: s in st.ahead ==> s in delivered
    requires after == if Decide(st, sn, key) == Delivered then delivered + {sn} else delivered
    ensures forall s :: 0 <= s < AdmitState(st, sn, key, lag).lowWatermark ==> s in after
  {
    hide Drain, Collect;
    if Decide(st, sn, key) == Delivered {
      DrainFacts(Floor(st.lowWatermark + 1, st.ahead));
    }
  }

  /** Without a sealed gap, exactly the numbers below the watermark and the parked ones were delivered. */
  lemma {:induction false} DeliveredExactly(lag: nat, inputs: seq<Input>, stream: Stream)
    requires NoGapSealed(lag, inputs, stream)
    ensures var st := StateOf(Run(EMPTY, lag, inputs), stream);
      forall s: nat :: s in DeliveredOn(EMPTY, lag, inputs, stream) <==> s < st.lowWatermark || s in st.ahead
    decreases |inputs|
  {
    hide AdmitState, Decide, Answer, DeliveredOn, SealsGap, Sound, Run;
    RunAccounts(lag, inputs, stream);
    BelowDelivered(lag, inputs, stream);
  }

  lemma {:induction false} BelowDelivered(lag: nat, inputs: seq<Input>, stream: Stream)
    requires NoGapSealed(lag, inputs, stream)
    ensures forall s: nat :: s < StateOf(Run(EMPTY, lag, inputs), stream).lowWatermark ==>
      s in DeliveredOn(EMPTY, lag, inputs, stream)
    decreases |inputs|
  {
    hide AdmitState, Decide, Answer, DeliveredOn, SealsGap, Sound;
    if inputs != [] {
      var n := |inputs| - 1;
      var init := inputs[..n];
      assert forall i :: 0 <= i < n ==> init[i] == inputs[i] && init[..i] == inputs[..i];
      BelowDelivered(lag, init, stream);
      RunAccounts(lag, init, stream);
      RunLast(EMPTY, lag, inputs, stream);
      if inputs[n].stream == stream {
        assert DeliveredOn(EMPTY, lag, init, stream) + {} == DeliveredOn(EMPTY, lag, init, stream);
        AdmitContiguous(StateOf(Run(EMPTY, lag, init), stream), inputs[n].sn, inputs[n].key, lag,
          DeliveredOn(EMPTY, lag, init, stream), DeliveredOn(EMPTY, lag, inputs, stream));
      }
    }
  }

  // ----- The simple gate the code refines: a watermark and a parked set -----

  ghost predicate SameFloors(a: Gate, b: Gate) {
    forall s: Stream {:trigger StateOf(a, s)} {:trigger StateOf(b, s)} :: FloorOf(StateOf(a, s)) == FloorOf(StateOf(b, s))
  }

  type Owner = (Stream, Key) -> nat

  /** Every key the gate remembers names the sequence number it was delivered under. */
  ghost predicate Owned(st: StreamState, stream: Stream, owner: Owner) {
    forall s :: s in st.deliveredKeys ==> owner(stream, st.deliveredKeys[s]) == s
  }

  ghost predicate OwnedGate(g: Gate, owner: Owner) {
    forall s :: s in g ==> Owned(g[s], s, owner)
  }

  ghost predicate KeysName(inputs: seq<Input>, owner: Owner) {
    forall i :: 0 <= i < |inputs| ==> owner(inputs[i].stream, inputs[i].key) == inputs[i].sn
  }

  /** When keys name sequence numbers, the answer depends on the watermark and the parked set alone. */
  lemma {:induction false} DecideByFloor(st: StreamState, stream: Stream, sn: nat, key: Key, owner: Owner)
    requires Sound(st) && Owned(st, stream, owner) && owner(stream, key) == sn
    ensures Decide(st, sn, key) == Duplicate <==> sn < st.lowWatermark || sn in st.ahead
  {
    if key in st.seen {
      var s :| s in st.deliveredKeys && st.deliveredKeys[s] == key;
    }
  }

  ghost function FloorAfter(f: Floor, sn: nat): Floor
    requires Parked(f)
  {
    if sn < f.low || sn in f.ahead then f else Advance(f, sn)
  }

  lemma {:induction false} AdmitByFloor(st: StreamState, stream: Stream, sn: nat, key: Key, lag: nat, owner: Owner)
    requires Sound(st) && Owned(st, stream, owner) && owner(stream, key) == sn
    ensures FloorOf(AdmitState(st, sn, key, lag)) == FloorAfter(FloorOf(st), sn)
    ensures Owned(AdmitState(st, sn, key, lag), stream, owner)
  {
    hide Advance;
    DecideByFloor(st, stream, sn, key, owner);
    if Decide(st, sn, key) == Delivered {
      var f := Advance(FloorOf(st), sn);
      var mid := StreamState(st.seen + {key}, st.deliveredKeys[sn := key], f.ahead, f.low, st.gcFloor);
      RecordIndexed(st, sn, key, mid);
      CollectIndexed(mid, Saturating(f.low, lag));
    }
  }

  /** Two gates with the same floors, and any lags, answer alike and keep the same floors. */
  lemma {:induction false} StepAgrees(a: Gate, b: Gate, lagA: nat, lagB: nat, x: Input, owner: Owner)
    requires SoundGate(a) && SoundGate(b) && SameFloors(a, b)
    requires OwnedGate(a, owner) && OwnedGate(b, owner) && owner(x.stream, x.key) == x.sn
    ensures Decide(StateOf(a, x.stream), x.sn, x.key) == Decide(StateOf(b, x.stream), x.sn, x.key)
    ensures var a', b' := Admitted(a, x.stream, x.sn, x.key, lagA), Admitted(b, x.stream, x.sn, x.key, lagB);
      SameFloors(a', b') && OwnedGate(a', owner) && OwnedGate(b', owner)
  {
    hide Sound, AdmitState, Decide, FloorAfter;
    SoundState(a, x.stream);
    SoundState(b, x.stream);
    var sa, sb := StateOf(a, x.stream), StateOf(b, x.stream);
    assert FloorOf(sa) == FloorOf(sb);
    DecideByFloor(sa, x.stream, x.sn, x.key, owner);
    DecideByFloor(sb, x.stream, x.sn, x.key, owner);
    AdmitByFloor(sa, x.stream, x.sn, x.key, lagA, owner);
    AdmitByFloor(sb, x.stream, x.sn, x.key, lagB, owner);
    var a', b' := Admitted(a, x.stream, x.sn, x.key, lagA), Admitted(b, x.stream, x.sn, x.key, lagB);
    forall s: Stream {:trigger StateOf(a', s)} {:trigger StateOf(b', s)}
      ensures FloorOf(StateOf(a', s)) == FloorOf(StateOf(b', s))
    {
      assert FloorOf(StateOf(a, s)) == FloorOf(StateOf(b, s));
    }
  }

  lemma {:induction false} RunsAgree(a: Gate, b: Gate, lagA: nat, lagB: nat, inputs: seq<Input>, owner: Owner)
    requires SoundGate(a) && SoundGate(b) && SameFloors(a, b)
    requires OwnedGate(a, owner) && OwnedGate(b, owner) && KeysName(inputs, owner)
    ensures SameFloors(Run(a, lagA, inputs), Run(b, lagB, inputs))
    ensures OwnedGate(Run(a, lagA, inputs), owner) && OwnedGate(Run(b, lagB, inputs), owner)
    ensures forall i :: 0 <= i < |inputs| ==> Answer(a, lagA, inputs, i) == Answer(b, lagB, inputs, i)
    decreases |inputs|
  {
    hide SoundGate, SameFloors, OwnedGate, Decide, Admitted;
    if inputs != [] {
      var n := |inputs| - 1;
      RunsAgree(a, b, lagA, lagB, inputs[..n], owner);
      StepAgrees(Run(a, lagA, inputs[..n]), Run(b, lagB, inputs[..n]), lagA, lagB, inputs[n], owner);
      forall i | 0 <= i < |inputs| ensures Answer(a, lagA, inputs, i) == Answer(b, lagB, inputs, i) {
        if i < n {
          AnswerPrefix(a, lagA, inputs, n, i);
          AnswerPrefix(b, lagB, inputs, n, i);
        }
      }
    }
  }

  // ----- Everything offered is delivered -----

  /** The numbers offered on one stream. */
  ghost function OfferedOn(inputs: seq<Input>, stream: Stream): set<nat> {
    set i | 0 <= i < |inputs| && inputs[i].stream == stream :: inputs[i].sn
  }

  /** At no time are 2^20 numbers parked on this stream. */
  ghost predicate FewParked(lag: nat, inputs: seq<Input>, stream: Stream) {
    forall i :: 0 <= i < |inputs| ==> |StateOf(Run(EMPTY, lag, inputs[..i]), stream).ahead| < 1048576
  }

  lemma {:induction false} FewParkedSealNothing(lag: nat, inputs: seq<Input>, stream: Stream)
    requires FewParked(lag, inputs, stream)
    ensures NoGapSealed(lag, inputs, stream)
  {
    hide Run;
  }

  /** With 2^20 numbers parked, one more seals the lowest gap. */
  lemma {:induction false} HorizonSeals(st: StreamState, sn: nat, key: Key, lag: nat)
    requires Sound(st) && Decide(st, sn, key) == Delivered && sn > st.lowWatermark && |st.ahead| == 1048576
    ensures AdmitState(st, sn, key, lag).lowWatermark > st.lowWatermark
  {
    hide Drain, Seal, Collect;
    var f := Floor(st.lowWatermark, st.ahead + {sn});
    SealFacts(f);
    var g := Seal(f);
    if g.low == f.low {
      assert forall s :: s in f.ahead ==> s in g.ahead;
      SubsetSize(f.ahead, g.ahead);
    }
  }

  /**
   When a key names one number and fewer than 2^20 numbers are ever parked, every number offered is delivered, and by
   AtMostOnce just once: exactly once, in whatever order, however often and under whatever lag they come.
   */
  lemma {:induction false} EveryOfferDelivered(lag: nat, inputs: seq<Input>, stream: Stream, owner: Owner)
    requires KeysName(inputs, owner) && FewParked(lag, inputs, stream)
    ensures DeliveredOn(EMPTY, lag, inputs, stream) == OfferedOn(inputs, stream)
    decreases |inputs|
  {
    hide AdmitState, Decide, Answer, DeliveredOn, SealsGap, Sound, OwnedGate;
    if inputs == [] {
      assert DeliveredOn(EMPTY, lag, inputs, stream) == {} by { NoInputs(lag, inputs, stream); }
    } else {
      var n := |inputs| - 1;
      var init, x := inputs[..n], inputs[n];
      assert forall i :: 0 <= i < n ==> init[i] == inputs[i] && init[..i] == inputs[..i];
      EveryOfferDelivered(lag, init, stream, owner);
      RunLast(EMPTY, lag, inputs, stream);
      OfferedLast(inputs, stream);
      if x.stream == stream {
        FewParkedSealNothing(lag, init, stream);
        DeliveredExactly(lag, init, stream);
        EmptyOwned(owner);
        RunsAgree(EMPTY, EMPTY, lag, lag, init, owner);
        SoundState(Run(EMPTY, lag, init), stream);
        OwnedState(Run(EMPTY, lag, init), stream, owner);
        DecideByFloor(StateOf(Run(EMPTY, lag, init), stream), stream, x.sn, x.key, owner);
      }
      assert DeliveredOn(EMPTY, lag, init, stream) + {} == DeliveredOn(EMPTY, lag, init, stream);
    }
  }

  lemma {:induction false} NoInputs(lag: nat, inputs: seq<Input>, stream: Stream)
    requires inputs == []
    ensures DeliveredOn(EMPTY, lag, inputs, stream) == {}
  {
  }

  lemma {:induction false} EmptyOwned(owner: Owner)
    ensures OwnedGate(EMPTY, owner) && SameFloors(EMPTY, EMPTY)
  {
  }

  lemma {:induction false} OfferedLast(inputs: seq<Input>, stream: Stream)
    requires inputs != []
    ensures var n := |inputs| - 1;
      OfferedOn(inputs, stream) == OfferedOn(inputs[..n], stream) + if inputs[n].stream == stream then {inputs[n].sn} else {}
  {
    var n := |inputs| - 1;
    var init := inputs[..n];
    assert forall i :: 0 <= i < n ==> init[i] == inputs[i];
    forall s <- OfferedOn(init, stream) ensures s in OfferedOn(inputs, stream) {
      var i :| 0 <= i < n && init[i].stream == stream && init[i].sn == s;
      assert inputs[i].sn == s;
    }
    forall s <- OfferedOn(inputs, stream)
      ensures s in OfferedOn(init, stream) || (inputs[n].stream == stream && s == inputs[n].sn)
    {
      var i :| 0 <= i < |inputs| && inputs[i].stream == stream && inputs[i].sn == s;
      assert i < n ==> init[i].sn == s;
    }
  }

  // ----- Recovery from checkpoints -----

  /** Admit checkpoint entries one after another into one stream. */
  ghost function Replay(st: StreamState, entries: seq<(nat, Key)>, lag: nat): (r: StreamState)
    requires Sound(st)
    ensures Sound(r)
    decreases |entries|
  {
    if entries == [] then st
    else
      var before := Replay(st, entries[..|entries| - 1], lag);
      var last := entries[|entries| - 1];
      AdmitSound(before, last.0, last.1, lag);
      AdmitState(before, last.0, last.1, lag)
  }

  ghost function Numbers(entries: seq<(nat, Key)>): set<nat> {
    set i | 0 <= i < |entries| :: entries[i].0
  }

  /** A stream rebuilt so far: the watermark and the entries replayed, nothing else. */
  ghost predicate Rebuilt(r: StreamState, st: StreamState, entries: seq<(nat, Key)>, lag: nat) {
    && r.lowWatermark == st.lowWatermark
    && r.gcFloor == Saturating(st.lowWatermark, lag)
    && r.ahead == Numbers(entries) == r.deliveredKeys.Keys
    && (forall s :: s in r.deliveredKeys ==> s in st.deliveredKeys && r.deliveredKeys[s] == st.deliveredKeys[s])
  }

  lemma {:induction false} RestoreFresh(st: StreamState, lag: nat)
    ensures Sound(RestoreState(FRESH, st.lowWatermark, lag))
    ensures Rebuilt(RestoreState(FRESH, st.lowWatermark, lag), st, [], lag)
  {
    var r := RestoreState(FRESH, st.lowWatermark, lag);
    assert r.ahead == {} && r.seen == {} && r.deliveredKeys == map[];
  }

  /** Parking one number under the horizon, with nothing to collect. */
  lemma {:induction false} AdmitParks(r: StreamState, sn: nat, key: Key, lag: nat)
    requires Sound(r) && sn > r.lowWatermark && sn !in r.deliveredKeys && key !in r.seen
    requires |r.ahead + {sn}| <= MAX_REORDER_HORIZON && r.gcFloor == Saturating(r.lowWatermark, lag)
    ensures AdmitState(r, sn, key, lag) ==
      StreamState(r.seen + {key}, r.deliveredKeys[sn := key], r.ahead + {sn}, r.lowWatermark, r.gcFloor)
  {
  }

  lemma {:induction false} NumbersAppend(entries: seq<(nat, Key)>, sn: nat, key: Key)
    ensures Numbers(entries + [(sn, key)]) == Numbers(entries) + {sn}
  {
    var next := entries + [(sn, key)];
    assert next[|entries|] == (sn, key);
    forall x | x in Numbers(entries) ensures x in Numbers(next) {
      var i :| 0 <= i < |entries| && entries[i].0 == x;
      assert next[i] == entries[i];
    }
  }

  /** A checkpoint entry is a parked number that the rebuilt stream has not seen. */
  lemma {:induction false} ReplayOne(r: StreamState, st: StreamState, entries: seq<(nat, Key)>, sn: nat, key: Key,
                                     lag: nat)
    requires Sound(r) && Sound(st) && Rebuilt(r, st, entries, lag)
    requires sn in st.deliveredKeys && sn >= st.lowWatermark && st.deliveredKeys[sn] == key
    requires sn !in Numbers(entries) && Numbers(entries) <= st.ahead
    ensures Rebuilt(AdmitState(r, sn, key, lag), st, entries + [(sn, key)], lag)
  {
    hide AdmitState, Numbers, Sound;
    NumbersAppend(entries, sn, key);
    UnseenKey(r, st, sn, key);
    EntryIsParked(st, sn);
    SubsetSize(r.ahead + {sn}, st.ahead);
    AdmitParks(r, sn, key, lag);
  }

  lemma {:induction false} UnseenKey(r: StreamState, st: StreamState, sn: nat, key: Key)
    requires Sound(r) && Sound(st) && sn !in r.deliveredKeys
    requires forall s :: s in r.deliveredKeys ==> s in st.deliveredKeys && r.deliveredKeys[s] == st.deliveredKeys[s]
    requires sn in st.deliveredKeys && st.deliveredKeys[sn] == key
    ensures key !in r.seen
  {
  }

  /** An index entry at or above the watermark is a parked number. */
  lemma {:induction false} EntryIsParked(st: StreamState, sn: nat)
    requires Sound(st) && sn in st.deliveredKeys && sn >= st.lowWatermark
    ensures sn in st.ahead && sn > st.lowWatermark && |st.ahead| <= MAX_REORDER_HORIZON
  {
  }

  lemma {:induction false} ReplayRebuilds(st: StreamState, entries: seq<(nat, Key)>, lag: nat, n: nat)
    requires Sound(st) && Lists(entries, st) && n <= |entries|
    requires Sound(RestoreState(FRESH, st.lowWatermark, lag))
    ensures Rebuilt(Replay(RestoreState(FRESH, st.lowWatermark, lag), entries[..n], lag), st, entries[..n], lag)
    ensures Numbers(entries[..n]) <= st.ahead
    decreases n
  {
    hide AdmitState, RestoreState, Rebuilt, Sound;
    if n == 0 {
      assert entries[..n] == [];
      RestoreFresh(st, lag);
    } else {
      ReplayRebuilds(st, entries, lag, n - 1);
      var init, last := entries[..n - 1], entries[n - 1];
      assert entries[..n] == init + [last] && entries[..n][..n - 1] == init;
      assert last.0 in AboveWatermark(st);
      EntryIsParked(st, last.0);
      NumbersAppend(init, last.0, last.1);
      forall i | 0 <= i < n - 1 ensures init[i].0 != last.0 {
        assert entries[i].0 < entries[n - 1].0;
      }
      ReplayOne(Replay(RestoreState(FRESH, st.lowWatermark, lag), init, lag), st, init, last.0, last.1, lag);
    }
  }

  lemma {:induction false} ParkedAreListed(st: StreamState, entries: seq<(nat, Key)>)
    requires Sound(st) && Lists(entries, st)
    ensures st.ahead <= Numbers(entries)
  {
    forall s | s in st.ahead ensures s in Numbers(entries) {
      assert s in AboveWatermark(st);
    }
  }

  /** Of a stream: the same floor, and the keys of exactly the numbers from w on. */
  ghost predicate Restricted(r: StreamState, st: StreamState, w: nat) {
    && FloorOf(r) == FloorOf(st)
    && (forall s :: s in r.deliveredKeys <==> s in st.deliveredKeys && s >= w)
    && (forall s :: s in r.deliveredKeys ==> r.deliveredKeys[s] == st.deliveredKeys[s])
  }

  /** A stream rebuilt from its own checkpoint: the keys of the numbers its watermark had passed are gone. */
  ghost predicate Recovered(r: StreamState, st: StreamState, lag: nat) {
    Restricted(r, st, st.lowWatermark) && r.gcFloor == Saturating(st.lowWatermark, lag)
  }

  /** One stream, checkpointed and rebuilt under any lag: the watermark, the parked set, and the keys parked, no others. */
  lemma {:induction false} StreamRecovers(st: StreamState, entries: seq<(nat, Key)>, lag: nat)
    requires Sound(st) && Lists(entries, st)
    ensures Sound(RestoreState(FRESH, st.lowWatermark, lag))
    ensures Recovered(Replay(RestoreState(FRESH, st.lowWatermark, lag), entries, lag), st, lag)
  {
    hide Replay, RestoreState, Lists;
    RestoreFresh(st, lag);
    ReplayRebuilds(st, entries, lag, |entries|);
    assert entries[..|entries|] == entries;
    ParkedAreListed(st, entries);
  }

  lemma {:induction false} RestrictedOwned(r: StreamState, st: StreamState, w: nat, stream: Stream, owner: Owner)
    requires Restricted(r, st, w) && Owned(st, stream, owner)
    ensures Owned(r, stream, owner)
  {
  }

  /** Rebuild a gate from checkpoints: restore each watermark, then replay its entries. */
  ghost function RestoreGate(cps: seq<Checkpoint>, lag: nat): (g: Gate)
    ensures SoundGate(g)
    decreases |cps|
  {
    if cps == [] then EMPTY
    else
      var g, cp := RestoreGate(cps[..|cps| - 1], lag), cps[|cps| - 1];
      var st := RestoreState(StateOf(g, cp.stream), cp.watermark, lag);
      if Sound(st) then g[cp.stream := Replay(st, cp.entries, lag)] else g
  }

  /** The checkpoints of a gate, as the checkpoint method returns them. */
  ghost predicate Checkpointed(cps: seq<Checkpoint>, g: Gate) {
    && (forall i :: 0 <= i < |cps| ==>
          cps[i].stream in g && cps[i].watermark == g[cps[i].stream].lowWatermark &&
          Lists(cps[i].entries, g[cps[i].stream]))
    && (forall s :: s in g ==> exists i :: 0 <= i < |cps| && cps[i].stream == s)
    && (forall i, j :: 0 <= i < j < |cps| ==> cps[i].stream != cps[j].stream)
  }

  ghost function StreamsIn(cps: seq<Checkpoint>, n: nat): (r: set<Stream>)
    requires n <= |cps|
    ensures forall i :: 0 <= i < n ==> cps[i].stream in r
  {
    if n == 0 then {} else StreamsIn(cps, n - 1) + {cps[n - 1].stream}
  }

  lemma {:induction false} StreamsDistinct(cps: seq<Checkpoint>, n: nat, k: nat)
    requires n <= k < |cps|
    requires forall i, j :: 0 <= i < j < |cps| ==> cps[i].stream != cps[j].stream
    ensures cps[k].stream !in StreamsIn(cps, n)
  {
    if n > 0 {
      StreamsDistinct(cps, n - 1, k);
    }
  }

  /** A gate rebuilt from the checkpoints of another. */
  ghost predicate RebuiltGate(r: Gate, g: Gate, lag: nat) {
    forall s: Stream {:trigger StateOf(g, s)} {:trigger StateOf(r, s)} :: Recovered(StateOf(r, s), StateOf(g, s), lag)
  }

  lemma {:induction false} RestorePrefix(cps: seq<Checkpoint>, g: Gate, lag: nat, n: nat)
    requires SoundGate(g) && Checkpointed(cps, g) && n <= |cps|
    ensures var r := RestoreGate(cps[..n], lag);
      && r.Keys == StreamsIn(cps, n)
      && (forall s :: s in r ==> s in g && Recovered(r[s], g[s], lag))
    decreases n
  {
    hide SoundGate, Sound, Lists, Replay, RestoreState, Recovered, RestoreGate, Checkpointed;
    if n == 0 {
      RestoreNone(cps[..0], lag);
    } else {
      RestorePrefix(cps, g, lag, n - 1);
      CheckpointAt(cps, g, n - 1);
      StreamRecovers(g[cps[n - 1].stream], cps[n - 1].entries, lag);
      RestoreOne(cps, lag, n);
    }
  }

  lemma {:induction false} CheckpointAt(cps: seq<Checkpoint>, g: Gate, i: nat)
    requires SoundGate(g) && Checkpointed(cps, g) && i < |cps|
    ensures var cp := cps[i];
      && cp.stream in g && cp.watermark == g[cp.stream].lowWatermark && Lists(cp.entries, g[cp.stream])
      && Sound(g[cp.stream]) && cp.stream !in StreamsIn(cps, i)
  {
    hide Sound, Lists, StreamsIn;
    StreamsDistinct(cps, i, i);
  }

  lemma {:induction false} RestoreNone(cps: seq<Checkpoint>, lag: nat)
    requires cps == []
    ensures RestoreGate(cps, lag) == EMPTY
  {
  }

  /** One more checkpoint, of a stream that had none. */
  lemma {:induction false} RestoreOne(cps: seq<Checkpoint>, lag: nat, n: nat)
    requires 0 < n <= |cps| && cps[n - 1].stream !in RestoreGate(cps[..n - 1], lag)
    requires Sound(RestoreState(FRESH, cps[n - 1].watermark, lag))
    ensures RestoreGate(cps[..n], lag) ==
      RestoreGate(cps[..n - 1], lag)[cps[n - 1].stream :=
        Replay(RestoreState(FRESH, cps[n - 1].watermark, lag), cps[n - 1].entries, lag)]
  {
    hide Sound, Replay, RestoreState;
    assert cps[..n][..n - 1] == cps[..n - 1];
  }

  /** Restoring a gate's checkpoints rebuilds every stream without the keys of the numbers its watermark has passed. */
  lemma {:induction false} GateRecovers(g: Gate, cps: seq<Checkpoint>, lag: nat)
    requires SoundGate(g) && Checkpointed(cps, g)
    ensures RebuiltGate(RestoreGate(cps, lag), g, lag)
  {
    hide SoundGate, RestoreGate, StreamsIn, Lists;
    RestorePrefix(cps, g, lag, |cps|);
    assert cps[..|cps|] == cps;
    var r := RestoreGate(cps, lag);
    forall s: Stream {:trigger StateOf(g, s)} {:trigger StateOf(r, s)}
      ensures Recovered(StateOf(r, s), StateOf(g, s), lag)
    {
      if s in g {
        var j :| 0 <= j < |cps| && cps[j].stream == s;
      }
    }
  }

  /** When a key names one number, a gate rebuilt from checkpoints answers every further input as the original would. */
  lemma {:induction false} RecoveredAnswersAlike(g: Gate, cps: seq<Checkpoint>, lagOld: nat, lagNew: nat,
                                                 inputs: seq<Input>, owner: Owner, i: nat)
    requires SoundGate(g) && OwnedGate(g, owner) && Checkpointed(cps, g)
    requires KeysName(inputs, owner) && i < |inputs|
    ensures Answer(g, lagOld, inputs, i) == Answer(RestoreGate(cps, lagNew), lagNew, inputs, i)
  {
    hide SoundGate, Answer, RestoreGate, Lists, Restricted, Owned, Checkpointed;
    GateRecovers(g, cps, lagNew);
    var r := RestoreGate(cps, lagNew);
    forall s: Stream {:trigger StateOf(g, s)} {:trigger StateOf(r, s)}
      ensures FloorOf(StateOf(g, s)) == FloorOf(StateOf(r, s)) && (s in r ==> Owned(r[s], s, owner))
    {
      assert Recovered(StateOf(r, s), StateOf(g, s), lagNew);
      OwnedState(g, s, owner);
      RestrictedOwned(StateOf(r, s), StateOf(g, s), StateOf(g, s).lowWatermark, s, owner);
      SameFloor(StateOf(r, s), StateOf(g, s), StateOf(g, s).lowWatermark);
    }
    assert forall s :: s in r ==> StateOf(r, s) == r[s];
    RunsAgree(g, r, lagOld, lagNew, inputs, owner);
  }

  lemma {:induction false} OwnedState(g: Gate, s: Stream, owner: Owner)
    requires OwnedGate(g, owner)
    ensures Owned(StateOf(g, s), s, owner)
  {
  }

  lemma {:induction false} SameFloor(r: StreamState, st: StreamState, w: nat)
    requires Restricted(r, st, w)
    ensures FloorOf(r) == FloorOf(st)
  {
  }

  // ----- The counters stay in range -----

  /** Sequence numbers below a bound keep the watermark at or below it, so 64-bit counters suffice. */
  lemma {:induction false} WatermarkBounded(lag: nat, inputs: seq<Input>, stream: Stream, bound: nat)
    requires forall i :: 0 <= i < |inputs| ==> inputs[i].sn < bound
    ensures var st := StateOf(Run(EMPTY, lag, inputs), stream);
      st.lowWatermark <= bound && forall s :: s in st.ahead ==> s < bound
    decreases |inputs|
  {
    hide Sound, Decide, DeliveredOn, Answer;
    if inputs != [] {
      var n := |inputs| - 1;
      WatermarkBounded(lag, inputs[..n], stream, bound);
      RunLast(EMPTY, lag, inputs, stream);
      if inputs[n].stream == stream {
        AdmitBounded(StateOf(Run(EMPTY, lag, inputs[..n]), stream), inputs[n].sn, inputs[n].key, lag, bound);
      }
    }
  }

  lemma {:induction false} AdmitBounded(st: StreamState, sn: nat, key: Key, lag: nat, bound: nat)
    requires Sound(st) && sn < bound && st.lowWatermark <= bound && forall s :: s in st.ahead ==> s < bound
    ensures var r := AdmitState(st, sn, key, lag); r.lowWatermark <= bound && forall s :: s in r.ahead ==> s < bound
  {
    hide Drain, Seal, Collect;
    if Decide(st, sn, key) == Delivered {
      if sn == st.lowWatermark {
        DrainFacts(Floor(sn + 1, st.ahead));
        DrainBounded(Floor(sn + 1, st.ahead), bound);
      } else {
        SealFacts(Floor(st.lowWatermark, st.ahead + {sn}));
        SealBounded(Floor(st.lowWatermark, st.ahead + {sn}), bound);
      }
    }
  }

  lemma {:induction false} DrainBounded(f: Floor, bound: nat)
    requires f.low <= bound && forall s :: s in f.ahead ==> s < bound
    ensures Drain(f).low <= bound
  {
    hide Drain;
    DrainFacts(f);
    var g := Drain(f);
    if g.low > f.low {
      assert g.low - 1 in f.ahead;
    }
  }

  lemma {:induction false} SealBounded(f: Floor, bound: nat)
    requires Parked(f) && f.low <= bound && forall s :: s in f.ahead ==> s < bound
    ensures Seal(f).low <= bound
    decreases Room(f)
  {
    hide Drain, Room;
    if |f.ahead| > MAX_REORDER_HORIZON {
      var x :| x in f.ahead;
      RoomShrinks(f);
      DrainFacts(Floor(f.low + 1, f.ahead));
      DrainBounded(Floor(f.low + 1, f.ahead), bound);
      SealBounded(Drain(Floor(f.low + 1, f.ahead)), bound);
    }
  }
}
