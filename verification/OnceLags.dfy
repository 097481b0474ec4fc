/**
 The garbage-collection lag and the gate's answers: exactly which input sequences every lag answers alike.
 */
module OnceLags {
  import opened OnceGate
  import opened OnceRuns

  /** The keys a run has delivered on one stream. */
  ghost function KeysOn(lag: nat, inputs: seq<Input>, stream: Stream): set<Key> {
    set i | 0 <= i < |inputs| && inputs[i].stream == stream && Answer(EMPTY, lag, inputs, i) == Delivered
      :: inputs[i].key
  }

  /** The state of a stream in a gate that keeps no key of a number it has passed. */
  ghost function Eager(inputs: seq<Input>, stream: Stream): (st: StreamState)
    ensures Sound(st)
  {
    SoundState(Run(EMPTY, 0, inputs), stream);
    StateOf(Run(EMPTY, 0, inputs), stream)
  }

  /**
   Input i gets past every check that does not depend on the lag (it is not below the watermark, not parked, and its
   key is no parked number's), with a key that was delivered on its stream before.
   */
  ghost predicate ReusesKey(inputs: seq<Input>, i: nat)
    requires i < |inputs|
  {
    var x, st := inputs[i], Eager(inputs[..i], inputs[i].stream);
    && x.sn >= st.lowWatermark && x.sn !in st.ahead
    && (forall s <- st.ahead :: st.deliveredKeys[s] != x.key)
    && x.key in KeysOn(0, inputs[..i], x.stream)
  }

  ghost predicate NoReuse(inputs: seq<Input>) {
    forall i | 0 <= i < |inputs| :: !ReusesKey(inputs, i)
  }

  /** No lag changes an answer. */
  ghost predicate LagFree(inputs: seq<Input>) {
    forall lagA: nat, lagB: nat, i: nat | i < |inputs| ::
      Answer(EMPTY, lagA, inputs, i) == Answer(EMPTY, lagB, inputs, i)
  }

  // ----- What a run has delivered, key by key -----

  lemma {:induction false} KeysLast(lag: nat, inputs: seq<Input>, stream: Stream)
    requires inputs != []
    ensures var n := |inputs| - 1;
      KeysOn(lag, inputs, stream) ==
        KeysOn(lag, inputs[..n], stream) +
        (if inputs[n].stream == stream && Answer(EMPTY, lag, inputs, n) == Delivered then {inputs[n].key} else {})
  {
    hide Answer;
    var n := |inputs| - 1;
    var all, init := KeysOn(lag, inputs, stream), KeysOn(lag, inputs[..n], stream);
    forall i | 0 <= i < n ensures Answer(EMPTY, lag, inputs[..n], i) == Answer(EMPTY, lag, inputs, i) {
      AnswerPrefix(EMPTY, lag, inputs, n, i);
    }
    forall k <- init ensures k in all {
      var i :| 0 <= i < n && inputs[..n][i].stream == stream &&
        Answer(EMPTY, lag, inputs[..n], i) == Delivered && inputs[..n][i].key == k;
      assert inputs[i].key == k;
    }
    forall k <- all
      ensures k in init || (inputs[n].stream == stream && Answer(EMPTY, lag, inputs, n) == Delivered && k == inputs[n].key)
    {
      var i :| 0 <= i < |inputs| && inputs[i].stream == stream &&
        Answer(EMPTY, lag, inputs, i) == Delivered && inputs[i].key == k;
      if i < n {
        assert inputs[..n][i].key == k;
      }
    }
  }

  lemma {:induction false} SameKeys(lagA: nat, lagB: nat, inputs: seq<Input>, stream: Stream)
    requires forall i | 0 <= i < |inputs| :: Answer(EMPTY, lagA, inputs, i) == Answer(EMPTY, lagB, inputs, i)
    ensures KeysOn(lagA, inputs, stream) == KeysOn(lagB, inputs, stream)
  {
    hide Answer;
  }

  // ----- What collection leaves -----

  lemma {:induction false} CollectDrops(st: StreamState, newFloor: nat, s: nat)
    requires st.gcFloor <= s < newFloor || s !in st.deliveredKeys
    ensures s !in Collect(st, newFloor).deliveredKeys
    decreases newFloor - st.gcFloor
  {
    if st.gcFloor < newFloor {
      if st.gcFloor in st.deliveredKeys {
        CollectDrops(st.(seen := st.seen - {st.deliveredKeys[st.gcFloor]},
                         deliveredKeys := st.deliveredKeys - {st.gcFloor},
                         gcFloor := st.gcFloor + 1), newFloor, s);
      } else {
        CollectDrops(st.(gcFloor := st.gcFloor + 1), newFloor, s);
      }
    }
  }

  /** What an admission under any lag does to the index and the keys, when it delivers. */
  lemma {:induction false} AdmitKeys(st: StreamState, sn: nat, key: Key, lag: nat)
    requires Sound(st) && Decide(st, sn, key) == Delivered
    ensures var r, index := AdmitState(st, sn, key, lag), st.deliveredKeys[sn := key];
      && FloorOf(r) == Advance(FloorOf(st), sn)
      && (forall s <- r.deliveredKeys :: s in index && r.deliveredKeys[s] == index[s])
      && (forall s <- r.ahead :: s in r.deliveredKeys && s in index)
      && r.seen <= st.seen + {key}
  {
    hide Advance, Collect, Drain, Seal;
    var f := Advance(FloorOf(st), sn);
    AdvanceParked(FloorOf(st), sn);
    var mid := StreamState(st.seen + {key}, st.deliveredKeys[sn := key], f.ahead, f.low, st.gcFloor);
    RecordIndexed(st, sn, key, mid);
    CollectIndexed(mid, Saturating(f.low, lag));
    AdmitSound(st, sn, key, lag);
    var r := AdmitState(st, sn, key, lag);
    forall k <- r.seen ensures k in mid.seen {
      var s :| s in r.deliveredKeys && r.deliveredKeys[s] == k;
      assert mid.deliveredKeys[s] == k;
    }
  }

  /** What a delivery leaves of the index entry of one number that collection has not passed. */
  lemma {:induction false} AdmitAt(st: StreamState, sn: nat, key: Key, lag: nat, s: nat)
    requires Sound(st) && Decide(st, sn, key) == Delivered && (s in st.deliveredKeys ==> s >= st.gcFloor)
    ensures var r, index := AdmitState(st, sn, key, lag), st.deliveredKeys[sn := key];
      && (s in r.deliveredKeys <==> s in index && s >= Saturating(r.lowWatermark, lag))
      && (s in r.deliveredKeys ==> s >= r.gcFloor && r.deliveredKeys[s] == index[s])
  {
    hide Advance, Collect, Drain, Seal;
    var f := Advance(FloorOf(st), sn);
    AdvanceParked(FloorOf(st), sn);
    var mid := StreamState(st.seen + {key}, st.deliveredKeys[sn := key], f.ahead, f.low, st.gcFloor);
    RecordIndexed(st, sn, key, mid);
    CollectIndexed(mid, Saturating(f.low, lag));
    if s < Saturating(f.low, lag) {
      CollectDrops(mid, Saturating(f.low, lag), s);
    }
  }

  /** A stream's index: of the numbers delivered, those that the watermark has not passed by more than the lag. */
  ghost predicate WithinLag(st: StreamState, delivered: set<nat>, lag: nat) {
    && (forall s :: s in st.deliveredKeys <==> s in delivered && st.lowWatermark <= s + lag)
    && (forall s :: s in st.deliveredKeys ==> s >= st.gcFloor)
  }

  lemma {:induction false} LagStep(st: StreamState, sn: nat, key: Key, lag: nat, delivered: set<nat>)
    requires Sound(st) && WithinLag(st, delivered, lag) && Decide(st, sn, key) == Delivered
    ensures WithinLag(AdmitState(st, sn, key, lag), delivered + {sn}, lag)
  {
    AdmitRises(st, sn, key, lag);
    hide AdmitState, Sound, Decide;
    var r := AdmitState(st, sn, key, lag);
    forall s: nat
      ensures s in r.deliveredKeys <==> s in delivered + {sn} && r.lowWatermark <= s + lag
      ensures s in r.deliveredKeys ==> s >= r.gcFloor
    {
      AdmitAt(st, sn, key, lag, s);
    }
  }

  lemma {:induction false} AdmitRises(st: StreamState, sn: nat, key: Key, lag: nat)
    requires Sound(st) && Decide(st, sn, key) == Delivered
    ensures AdmitState(st, sn, key, lag).lowWatermark >= st.lowWatermark
  {
    hide Advance, Collect;
    AdvanceParked(FloorOf(st), sn);
  }

  /** In every run, under every lag, a key is known exactly while the watermark has passed its number by at most the lag. */
  lemma {:induction false} KeptExactly(lag: nat, inputs: seq<Input>, stream: Stream)
    ensures WithinLag(StateOf(Run(EMPTY, lag, inputs), stream), DeliveredOn(EMPTY, lag, inputs, stream), lag)
    decreases |inputs|
  {
    hide AdmitState, Decide, Sound, Answer, DeliveredOn, WithinLag;
    if inputs == [] {
      NothingKept(lag, stream);
    } else {
      var n := |inputs| - 1;
      KeptExactly(lag, inputs[..n], stream);
      RunLast(EMPTY, lag, inputs, stream);
      var st, before := StateOf(Run(EMPTY, lag, inputs[..n]), stream), DeliveredOn(EMPTY, lag, inputs[..n], stream);
      if inputs[n].stream == stream {
        if Decide(st, inputs[n].sn, inputs[n].key) == Delivered {
          LagStep(st, inputs[n].sn, inputs[n].key, lag, before);
        } else {
          Refused(st, inputs[n].sn, inputs[n].key, lag);
        }
      }
      assert before + {} == before;
    }
  }

  lemma {:induction false} Refused(st: StreamState, sn: nat, key: Key, lag: nat)
    requires Sound(st) && Decide(st, sn, key) != Delivered
    ensures AdmitState(st, sn, key, lag) == st
  {
  }

  lemma {:induction false} NothingKept(lag: nat, stream: Stream)
    ensures WithinLag(StateOf(Run(EMPTY, lag, []), stream), DeliveredOn(EMPTY, lag, [], stream), lag)
  {
  }

  /** With lag 0 the index is exactly the parked numbers. */
  ghost predicate OnlyParked(st: StreamState) {
    st.gcFloor == st.lowWatermark && st.deliveredKeys.Keys == st.ahead
  }

  lemma {:induction false} EagerStep(st: StreamState, sn: nat, key: Key)
    requires Sound(st) && OnlyParked(st)
    ensures OnlyParked(AdmitState(st, sn, key, 0))
  {
    hide Advance, Drain, Seal, Collect;
    if Decide(st, sn, key) == Delivered {
      var f := Advance(FloorOf(st), sn);
      var mid := StreamState(st.seen + {key}, st.deliveredKeys[sn := key], f.ahead, f.low, st.gcFloor);
      var r := AdmitState(st, sn, key, 0);
      AdvanceParked(FloorOf(st), sn);
      AdmitSound(st, sn, key, 0);
      CollectedBelow(mid, f.low);
      ParkedRemain(r);
    }
  }

  lemma {:induction false} CollectedBelow(st: StreamState, newFloor: nat)
    requires forall s <- st.deliveredKeys :: s >= st.gcFloor
    ensures forall s <- Collect(st, newFloor).deliveredKeys :: s >= newFloor
  {
    hide Collect;
    var r := Collect(st, newFloor);
    forall s: nat | s < newFloor ensures s !in r.deliveredKeys {
      CollectDrops(st, newFloor, s);
    }
  }

  lemma {:induction false} ParkedRemain(st: StreamState)
    requires Sound(st) && forall s <- st.deliveredKeys :: s >= st.lowWatermark
    ensures st.deliveredKeys.Keys == st.ahead
  {
  }

  lemma {:induction false} EagerOnlyParked(inputs: seq<Input>, stream: Stream)
    ensures OnlyParked(Eager(inputs, stream))
    decreases |inputs|
  {
    hide AdmitState, Decide, DeliveredOn, Answer, Sound;
    if inputs != [] {
      var n := |inputs| - 1;
      EagerOnlyParked(inputs[..n], stream);
      RunLast(EMPTY, 0, inputs, stream);
      if inputs[n].stream == stream {
        EagerStep(Eager(inputs[..n], stream), inputs[n].sn, inputs[n].key);
      }
    }
  }

  // ----- No reuse: every lag answers as lag 0 does -----

  /** A state under some lag beside the eager one: the same floor and parked keys, and only keys delivered. */
  ghost predicate Beside(st: StreamState, eager: StreamState, keys: set<Key>) {
    && FloorOf(st) == FloorOf(eager)
    && (forall s <- st.ahead :: s in st.deliveredKeys && s in eager.deliveredKeys &&
                                st.deliveredKeys[s] == eager.deliveredKeys[s])
    && st.seen <= keys
  }

  lemma {:induction false} BesideDecides(st: StreamState, eager: StreamState, keys: set<Key>, sn: nat, key: Key)
    requires Sound(st) && Sound(eager) && OnlyParked(eager) && Beside(st, eager, keys)
    requires sn < eager.lowWatermark || sn in eager.ahead || key !in keys ||
             exists s <- eager.ahead :: eager.deliveredKeys[s] == key
    ensures Decide(st, sn, key) == Decide(eager, sn, key)
  {
    if s :| s in eager.ahead && eager.deliveredKeys[s] == key {
      assert st.deliveredKeys[s] in st.seen && eager.deliveredKeys[s] in eager.seen;
    }
  }

  lemma {:induction false} BesideStep(st: StreamState, eager: StreamState, keys: set<Key>, sn: nat, key: Key, lag: nat)
    requires Sound(st) && Sound(eager) && Beside(st, eager, keys)
    requires Decide(st, sn, key) == Decide(eager, sn, key)
    ensures Beside(AdmitState(st, sn, key, lag), AdmitState(eager, sn, key, 0),
                   keys + (if Decide(eager, sn, key) == Delivered then {key} else {}))
  {
    if Decide(st, sn, key) == Delivered {
      AdmitKeys(st, sn, key, lag);
      AdmitKeys(eager, sn, key, 0);
      hide AdmitState, Sound, Decide, Advance;
      var r, e := AdmitState(st, sn, key, lag), AdmitState(eager, sn, key, 0);
      AdvanceShrinks(st, sn, key);
      forall s <- r.ahead ensures r.deliveredKeys[s] == e.deliveredKeys[s] {
        assert s == sn || s in st.ahead;
      }
    }
  }

  lemma {:induction false} AdvanceShrinks(st: StreamState, sn: nat, key: Key)
    requires Sound(st) && Decide(st, sn, key) == Delivered
    ensures Advance(FloorOf(st), sn).ahead <= st.ahead + {sn}
  {
    hide Advance;
    AdvanceParked(FloorOf(st), sn);
  }

  lemma {:induction false} RunsBeside(lag: nat, inputs: seq<Input>, stream: Stream)
    requires NoReuse(inputs)
    ensures Beside(StateOf(Run(EMPTY, lag, inputs), stream), Eager(inputs, stream), KeysOn(0, inputs, stream))
    ensures forall i | 0 <= i < |inputs| :: Answer(EMPTY, lag, inputs, i) == Answer(EMPTY, 0, inputs, i)
    decreases |inputs|, 1
  {
    hide AdmitState, Decide, DeliveredOn, Sound, Beside, Answer, ReusesKey;
    if inputs == [] {
      NothingBeside(lag, stream);
    } else {
      var n := |inputs| - 1;
      var init, x := inputs[..n], inputs[n];
      PrefixReuse(inputs, n);
      RunsBeside(lag, init, stream);
      LastAnswer(lag, inputs);
      RunLast(EMPTY, lag, inputs, stream);
      RunLast(EMPTY, 0, inputs, stream);
      KeysLast(0, inputs, stream);
      if x.stream == stream {
        BesideStep(StateOf(Run(EMPTY, lag, init), stream), Eager(init, stream), KeysOn(0, init, stream), x.sn, x.key, lag);
      }
      assert KeysOn(0, init, stream) + {} == KeysOn(0, init, stream);
      forall i | 0 <= i < |inputs| ensures Answer(EMPTY, lag, inputs, i) == Answer(EMPTY, 0, inputs, i) {
        if i < n {
          AnswerPrefix(EMPTY, lag, inputs, n, i);
          AnswerPrefix(EMPTY, 0, inputs, n, i);
        }
      }
    }
  }

  lemma {:induction false} NothingBeside(lag: nat, stream: Stream)
    ensures Beside(StateOf(Run(EMPTY, lag, []), stream), Eager([], stream), KeysOn(0, [], stream))
  {
  }

  lemma {:induction false} PrefixReuse(inputs: seq<Input>, n: nat)
    requires NoReuse(inputs) && n <= |inputs|
    ensures NoReuse(inputs[..n])
  {
    hide ReusesKey;
    forall i | 0 <= i < n ensures !ReusesKey(inputs[..n], i) {
      SameReuse(inputs, n, i);
    }
  }

  lemma {:induction false} SameReuse(inputs: seq<Input>, n: nat, i: nat)
    requires i < n <= |inputs|
    ensures ReusesKey(inputs[..n], i) == ReusesKey(inputs, i)
  {
    assert inputs[..n][..i] == inputs[..i];
  }

  /** The last input of a run without reuse is answered as lag 0 would. */
  lemma {:induction false} LastAnswer(lag: nat, inputs: seq<Input>)
    requires inputs != [] && NoReuse(inputs)
    ensures Answer(EMPTY, lag, inputs, |inputs| - 1) == Answer(EMPTY, 0, inputs, |inputs| - 1)
    decreases |inputs|, 0
  {
    hide AdmitState, Decide, DeliveredOn, Sound, Beside, KeysOn, Run;
    var n := |inputs| - 1;
    var init, x := inputs[..n], inputs[n];
    PrefixReuse(inputs, n);
    RunsBeside(lag, init, x.stream);
    EagerOnlyParked(init, x.stream);
    SoundState(Run(EMPTY, lag, init), x.stream);
    assert !ReusesKey(inputs, n);
    BesideDecides(StateOf(Run(EMPTY, lag, init), x.stream), Eager(init, x.stream), KeysOn(0, init, x.stream), x.sn, x.key);
  }

  // ----- Reuse: a lag that never collects answers otherwise -----

  lemma {:induction false} KeepStep(st: StreamState, sn: nat, key: Key, lag: nat)
    requires Sound(st) && sn < lag && st.gcFloor == 0
    requires st.lowWatermark <= lag && forall s <- st.ahead :: s < lag
    ensures AdmitState(st, sn, key, lag).gcFloor == 0
    ensures AdmitState(st, sn, key, lag).seen == st.seen + (if Decide(st, sn, key) == Delivered then {key} else {})
  {
    hide Advance, Drain, Seal;
    AdmitBounded(st, sn, key, lag, lag);
  }

  /** Under a lag above every number, each delivered key is still known. */
  lemma {:induction false} KeepsEveryKey(lag: nat, inputs: seq<Input>, stream: Stream)
    requires forall i | 0 <= i < |inputs| :: inputs[i].sn < lag
    ensures var st := StateOf(Run(EMPTY, lag, inputs), stream);
      st.gcFloor == 0 && st.seen == KeysOn(lag, inputs, stream)
    decreases |inputs|
  {
    hide AdmitState, Decide, DeliveredOn, Answer, Sound;
    if inputs != [] {
      var n := |inputs| - 1;
      KeepsEveryKey(lag, inputs[..n], stream);
      WatermarkBounded(lag, inputs[..n], stream, lag);
      RunLast(EMPTY, lag, inputs, stream);
      KeysLast(lag, inputs, stream);
      if inputs[n].stream == stream {
        KeepStep(StateOf(Run(EMPTY, lag, inputs[..n]), stream), inputs[n].sn, inputs[n].key, lag);
      }
    }
  }

  ghost function Above(inputs: seq<Input>): (lag: nat)
    ensures forall i | 0 <= i < |inputs| :: inputs[i].sn < lag
  {
    if inputs == [] then 0
    else
      var n := |inputs| - 1;
      var lag := Above(inputs[..n]);
      assert forall i | 0 <= i < n :: inputs[..n][i] == inputs[i];
      if lag <= inputs[n].sn then inputs[n].sn + 1 else lag
  }

  /** A reused key that gets past the other checks: lag 0 delivers it, a lag above every number does not. */
  lemma {:induction false} ReuseDiffers(inputs: seq<Input>, i: nat)
    requires i < |inputs| && ReusesKey(inputs, i)
    requires forall j | 0 <= j < i :: Answer(EMPTY, 0, inputs, j) == Answer(EMPTY, Above(inputs), inputs, j)
    ensures Answer(EMPTY, 0, inputs, i) == Delivered && Answer(EMPTY, Above(inputs), inputs, i) == Duplicate
  {
    hide DeliveredOn, KeysOn, Run;
    var init, x, lag := inputs[..i], inputs[i], Above(inputs);
    EagerOnlyParked(init, x.stream);
    hide Answer, ReusesKey;
    forall j | 0 <= j < i ensures Answer(EMPTY, 0, init, j) == Answer(EMPTY, lag, init, j) {
      AnswerPrefix(EMPTY, 0, inputs, i, j);
      AnswerPrefix(EMPTY, lag, inputs, i, j);
    }
    SameKeys(0, lag, init, x.stream);
    KeepsEveryKey(lag, init, x.stream);
  }

  /**
   Exactly when the lag is a retention knob: every two lags answer every input alike if and only if no input that
   gets past the watermark, the parked numbers and their keys carries a key delivered on its stream before.
   */
  lemma {:induction false} LagFreeExactly(inputs: seq<Input>)
    ensures LagFree(inputs) <==> NoReuse(inputs)
  {
    hide Answer, ReusesKey;
    if NoReuse(inputs) {
      forall lagA: nat, lagB: nat, i: nat | i < |inputs|
        ensures Answer(EMPTY, lagA, inputs, i) == Answer(EMPTY, lagB, inputs, i)
      {
        RunsBeside(lagA, inputs, inputs[i].stream);
        RunsBeside(lagB, inputs, inputs[i].stream);
      }
    } else {
      var i :| 0 <= i < |inputs| && ReusesKey(inputs, i);
      if LagFree(inputs) {
        ReuseDiffers(inputs, i);
      }
    }
  }

  // ----- A key that names one number -----

  lemma {:induction false} NamedKeysDoNotReuse(inputs: seq<Input>, owner: Owner, i: nat)
    requires KeysName(inputs, owner) && i < |inputs|
    ensures !ReusesKey(inputs, i)
  {
    hide Answer, Sound, Run;
    var init, x := inputs[..i], inputs[i];
    if ReusesKey(inputs, i) {
      var j :| 0 <= j < i && init[j].stream == x.stream && Answer(EMPTY, 0, init, j) == Delivered && init[j].key == x.key;
      assert owner(inputs[j].stream, inputs[j].key) == inputs[j].sn;
      assert init[j].sn in DeliveredOn(EMPTY, 0, init, x.stream);
      RunAccounts(0, init, x.stream);
    }
  }

  /** When a key names one sequence number, no lag changes an answer. */
  lemma {:induction false} LagIndependent(inputs: seq<Input>, lagA: nat, lagB: nat, owner: Owner, i: nat)
    requires KeysName(inputs, owner) && i < |inputs|
    ensures Answer(EMPTY, lagA, inputs, i) == Answer(EMPTY, lagB, inputs, i)
  {
    hide Answer, ReusesKey;
    forall j | 0 <= j < |inputs| ensures !ReusesKey(inputs, j) {
      NamedKeysDoNotReuse(inputs, owner, j);
    }
    LagFreeExactly(inputs);
  }

  /** A key used for two sequence numbers is delivered or not depending on the lag. */
  lemma {:induction false} LagChangesAnAnswer(stream: Stream, key: Key)
    ensures var inputs := [Input(stream, 0, key), Input(stream, 1, key)];
      && Answer(EMPTY, 0, inputs, 1) == Delivered
      && Answer(EMPTY, 1, inputs, 1) == Duplicate
  {
    var inputs := [Input(stream, 0, key), Input(stream, 1, key)];
    assert inputs[..1] == [Input(stream, 0, key)];
    assert inputs[..1][..0] == [];
    forall lag: nat ensures StateOf(Run(EMPTY, lag, inputs[..1]), stream) == AdmitState(FRESH, 0, key, lag) {
    }
    assert Drain(Floor(1, {})) == Floor(1, {});
    var mid := StreamState({key}, map[0 := key], {}, 1, 0);
    assert {} + {key} == {key} && (map[])[0 := key] == map[0 := key];
    assert AdmitState(FRESH, 0, key, 0) == Collect(mid, 1);
    assert AdmitState(FRESH, 0, key, 1) == Collect(mid, 0);
    assert Collect(mid, 1) == StreamState({key} - {key}, map[0 := key] - {0}, {}, 1, 1);
  }
}
