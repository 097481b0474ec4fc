/**
 A gate rebuilt from checkpoints has forgotten the keys of the numbers its watermarks had passed. Exactly which further
 inputs it still answers as the original would have.
 */
module OnceRecovery {
  import opened OnceGate
  import opened OnceRuns
  import opened OnceLags

  /**
   Input i gets past the watermark and the parked numbers, with a key that the original still knows, from a number
   below the watermark its stream was checkpointed at.
   */
  ghost predicate MeetsDropped(g: Gate, lag: nat, inputs: seq<Input>, i: nat)
    requires SoundGate(g) && i < |inputs|
  {
    Dropped(StateOf(Run(g, lag, inputs[..i]), inputs[i].stream), StateOf(g, inputs[i].stream).lowWatermark,
            inputs[i].sn, inputs[i].key)
  }

  ghost predicate Dropped(st: StreamState, w: nat, sn: nat, key: Key) {
    sn >= st.lowWatermark && sn !in st.ahead && exists s :: s in st.deliveredKeys && s < w && st.deliveredKeys[s] == key
  }

  /** The rebuilt stream r beside the original st, since a checkpoint at watermark w. */
  ghost predicate Trails(r: StreamState, st: StreamState, w: nat) {
    && Restricted(r, st, w) && w <= st.lowWatermark
    && (forall s :: s in r.deliveredKeys ==> s >= r.gcFloor && s >= st.gcFloor)
  }

  /** They decide differently exactly on a dropped key: the original refuses it, the rebuilt one delivers. */
  lemma {:induction false} TrailsDecides(r: StreamState, st: StreamState, w: nat, sn: nat, key: Key)
    requires Sound(r) && Sound(st) && Trails(r, st, w)
    ensures Decide(r, sn, key) == Decide(st, sn, key) <==> !Dropped(st, w, sn, key)
    ensures Dropped(st, w, sn, key) ==> Decide(st, sn, key) == Duplicate && Decide(r, sn, key) == Delivered
  {
    assert sn in r.deliveredKeys ==> sn in st.deliveredKeys;
    if key in r.seen {
      var s: nat :| s in r.deliveredKeys && r.deliveredKeys[s] == key;
      assert st.deliveredKeys[s] == key;
    }
    if key in st.seen {
      var s: nat :| s in st.deliveredKeys && st.deliveredKeys[s] == key;
      assert s >= w ==> r.deliveredKeys[s] == key;
    }
  }

  lemma {:induction false} TrailsAt(r: StreamState, st: StreamState, w: nat, sn: nat, key: Key, lag: nat, s: nat)
    requires Sound(r) && Sound(st) && Trails(r, st, w) && Decide(r, sn, key) == Decide(st, sn, key) == Delivered
    requires AdmitState(r, sn, key, lag).lowWatermark == AdmitState(st, sn, key, lag).lowWatermark
    ensures var r', st' := AdmitState(r, sn, key, lag), AdmitState(st, sn, key, lag);
      && (s in r'.deliveredKeys <==> s in st'.deliveredKeys && s >= w)
      && (s in r'.deliveredKeys ==> r'.deliveredKeys[s] == st'.deliveredKeys[s] && s >= r'.gcFloor && s >= st'.gcFloor)
  {
    assert sn >= w;
    hide AdmitState, Sound, Decide;
    AdmitAt(r, sn, key, lag, s);
    if s >= w {
      AdmitAt(st, sn, key, lag, s);
    }
  }

  /** Under one lag, deciding alike keeps the rebuilt stream beside the original. */
  lemma {:induction false} TrailsStep(r: StreamState, st: StreamState, w: nat, sn: nat, key: Key, lag: nat)
    requires Sound(r) && Sound(st) && Trails(r, st, w) && Decide(r, sn, key) == Decide(st, sn, key)
    ensures Trails(AdmitState(r, sn, key, lag), AdmitState(st, sn, key, lag), w)
  {
    if Decide(st, sn, key) == Delivered {
      AdmitFloor(r, sn, key, lag);
      AdmitFloor(st, sn, key, lag);
      AdvanceRises(st, sn, key);
      hide AdmitState, Sound, Decide, Advance;
      forall s: nat
        ensures var r', st' := AdmitState(r, sn, key, lag), AdmitState(st, sn, key, lag);
          && (s in r'.deliveredKeys <==> s in st'.deliveredKeys && s >= w)
          && (s in r'.deliveredKeys ==> r'.deliveredKeys[s] == st'.deliveredKeys[s] && s >= r'.gcFloor && s >= st'.gcFloor)
      {
        TrailsAt(r, st, w, sn, key, lag, s);
      }
    }
  }

  lemma {:induction false} AdmitFloor(st: StreamState, sn: nat, key: Key, lag: nat)
    requires Sound(st) && Decide(st, sn, key) == Delivered
    ensures FloorOf(AdmitState(st, sn, key, lag)) == Advance(FloorOf(st), sn)
  {
    hide Advance;
    AdmitKeys(st, sn, key, lag);
  }

  lemma {:induction false} AdvanceRises(st: StreamState, sn: nat, key: Key)
    requires Sound(st) && Decide(st, sn, key) == Delivered
    ensures Advance(FloorOf(st), sn).low >= st.lowWatermark
  {
    hide Advance;
    AdvanceParked(FloorOf(st), sn);
  }

  /** Every stream of r beside that of g, since the checkpoint of `from`. */
  ghost predicate GateTrails(r: Gate, g: Gate, from: Gate) {
    forall s: Stream {:trigger StateOf(g, s)} {:trigger StateOf(r, s)} {:trigger StateOf(from, s)} ::
      Trails(StateOf(r, s), StateOf(g, s), StateOf(from, s).lowWatermark)
  }

  lemma {:induction false} RebuiltTrails(r: Gate, g: Gate, lag: nat)
    requires SoundGate(g) && RebuiltGate(r, g, lag)
    ensures GateTrails(r, g, g)
  {
    forall s: Stream ensures Trails(StateOf(r, s), StateOf(g, s), StateOf(g, s).lowWatermark) {
      SoundState(g, s);
    }
  }

  /** Until an input meets a dropped key, the rebuilt gate answers alike and stays beside the original. */
  lemma {:induction false} RunsTrail(r: Gate, g: Gate, lag: nat, inputs: seq<Input>)
    requires SoundGate(r) && SoundGate(g) && GateTrails(r, g, g)
    requires forall i | 0 <= i < |inputs| :: !MeetsDropped(g, lag, inputs, i)
    ensures GateTrails(Run(r, lag, inputs), Run(g, lag, inputs), g)
    ensures forall i | 0 <= i < |inputs| :: Answer(r, lag, inputs, i) == Answer(g, lag, inputs, i)
    decreases |inputs|
  {
    hide Trails, SoundGate, MeetsDropped, Decide, AdmitState, Answer;
    if inputs != [] {
      var n := |inputs| - 1;
      forall i | 0 <= i < n ensures !MeetsDropped(g, lag, inputs[..n], i) {
        DroppedPrefix(g, lag, inputs, n, i);
      }
      RunsTrail(r, g, lag, inputs[..n]);
      LastTrails(r, g, lag, inputs);
      forall i | 0 <= i < |inputs| ensures Answer(r, lag, inputs, i) == Answer(g, lag, inputs, i) {
        if i < n {
          AnswerPrefix(r, lag, inputs, n, i);
          AnswerPrefix(g, lag, inputs, n, i);
        }
      }
    }
  }

  lemma {:induction false} DroppedPrefix(g: Gate, lag: nat, inputs: seq<Input>, n: nat, i: nat)
    requires SoundGate(g) && i < n <= |inputs|
    ensures MeetsDropped(g, lag, inputs[..n], i) == MeetsDropped(g, lag, inputs, i)
  {
    assert inputs[..n][..i] == inputs[..i];
  }

  lemma {:induction false} LastTrails(r: Gate, g: Gate, lag: nat, inputs: seq<Input>)
    requires SoundGate(r) && SoundGate(g) && inputs != [] && !MeetsDropped(g, lag, inputs, |inputs| - 1)
    requires var n := |inputs| - 1; GateTrails(Run(r, lag, inputs[..n]), Run(g, lag, inputs[..n]), g)
    ensures GateTrails(Run(r, lag, inputs), Run(g, lag, inputs), g)
    ensures Answer(r, lag, inputs, |inputs| - 1) == Answer(g, lag, inputs, |inputs| - 1)
  {
    hide Trails, SoundGate, AdmitState, Dropped, Sound, DeliveredOn, Run;
    var n := |inputs| - 1;
    var x, old', new' := inputs[n], Run(g, lag, inputs[..n]), Run(r, lag, inputs[..n]);
    SoundState(old', x.stream);
    SoundState(new', x.stream);
    var w := StateOf(g, x.stream).lowWatermark;
    assert Trails(StateOf(new', x.stream), StateOf(old', x.stream), w);
    TrailsDecides(StateOf(new', x.stream), StateOf(old', x.stream), w, x.sn, x.key);
    TrailsStep(StateOf(new', x.stream), StateOf(old', x.stream), w, x.sn, x.key, lag);
    forall s: Stream
      ensures Trails(StateOf(Run(r, lag, inputs), s), StateOf(Run(g, lag, inputs), s), StateOf(g, s).lowWatermark)
    {
      RunLast(r, lag, inputs, s);
      RunLast(g, lag, inputs, s);
      assert Trails(StateOf(new', s), StateOf(old', s), StateOf(g, s).lowWatermark);
    }
  }

  /**
   Exactly when replaying checkpoints is recovery: the rebuilt gate answers all of these inputs as the original would
   if and only if none that gets past the watermark and the parked numbers carries a key the original still knows from
   before the checkpoint.
   */
  lemma {:induction false} RecoversExactly(g: Gate, cps: seq<Checkpoint>, lag: nat, inputs: seq<Input>)
    requires SoundGate(g) && Checkpointed(cps, g)
    ensures (forall i | 0 <= i < |inputs| :: Answer(RestoreGate(cps, lag), lag, inputs, i) == Answer(g, lag, inputs, i)) <==>
            (forall i | 0 <= i < |inputs| :: !MeetsDropped(g, lag, inputs, i))
  {
    hide RestoreGate, Checkpointed, MeetsDropped, Answer, SoundGate, GateTrails;
    var r := RestoreGate(cps, lag);
    GateRecovers(g, cps, lag);
    RebuiltTrails(r, g, lag);
    if i :| 0 <= i < |inputs| && MeetsDropped(g, lag, inputs, i) {
      var j := FirstDropped(g, lag, inputs, i);
      DroppedDiffers(r, g, lag, inputs, j);
    } else {
      RunsTrail(r, g, lag, inputs);
    }
  }

  lemma {:induction false} FirstDropped(g: Gate, lag: nat, inputs: seq<Input>, i: nat) returns (j: nat)
    requires SoundGate(g) && i < |inputs| && MeetsDropped(g, lag, inputs, i)
    ensures j <= i && MeetsDropped(g, lag, inputs, j) && forall h | 0 <= h < j :: !MeetsDropped(g, lag, inputs, h)
    decreases i
  {
    hide MeetsDropped, SoundGate;
    if h :| 0 <= h < i && MeetsDropped(g, lag, inputs, h) {
      j := FirstDropped(g, lag, inputs, h);
    } else {
      j := i;
    }
  }

  /** The first input that meets a dropped key is refused by the original and delivered by the rebuilt gate. */
  lemma {:induction false} DroppedDiffers(r: Gate, g: Gate, lag: nat, inputs: seq<Input>, j: nat)
    requires SoundGate(r) && SoundGate(g) && GateTrails(r, g, g) && j < |inputs| && MeetsDropped(g, lag, inputs, j)
    requires forall h | 0 <= h < j :: !MeetsDropped(g, lag, inputs, h)
    ensures Answer(g, lag, inputs, j) == Duplicate && Answer(r, lag, inputs, j) == Delivered
  {
    hide Trails, SoundGate, Dropped, Sound, Run, Decide;
    forall h | 0 <= h < j ensures !MeetsDropped(g, lag, inputs[..j], h) {
      DroppedPrefix(g, lag, inputs, j, h);
    }
    RunsTrail(r, g, lag, inputs[..j]);
    var x, old', new' := inputs[j], Run(g, lag, inputs[..j]), Run(r, lag, inputs[..j]);
    SoundState(old', x.stream);
    SoundState(new', x.stream);
    assert Trails(StateOf(new', x.stream), StateOf(old', x.stream), StateOf(g, x.stream).lowWatermark);
    TrailsDecides(StateOf(new', x.stream), StateOf(old', x.stream), StateOf(g, x.stream).lowWatermark, x.sn, x.key);
  }

  /**
   "Replaying a checkpoint reconstructs the stream's state exactly" fails below the watermark: number 0 is delivered
   under lag 1 and checkpointed; the original then refuses its key on number 1, and the rebuilt gate delivers it.
   */
  lemma {:induction false} RecoveryForgetsKey(stream: Stream, key: Key)
    ensures var g := Run(EMPTY, 1, [Input(stream, 0, key)]);
      var cps, inputs := [Checkpoint(stream, 1, [])], [Input(stream, 1, key)];
      && Checkpointed(cps, g)
      && Answer(g, 1, inputs, 0) == Duplicate && Answer(RestoreGate(cps, 1), 1, inputs, 0) == Delivered
  {
    hide AdmitState, Decide, RestoreGate, RestoreState, Run, Lists;
    var cps, inputs := [Checkpoint(stream, 1, [])], [Input(stream, 1, key)];
    FirstDelivered(key);
    OneInput(stream, key);
    OneCheckpoint(stream, key);
    var g := Run(EMPTY, 1, [Input(stream, 0, key)]);
    assert forall s :: s in g ==> s == cps[0].stream;
    NothingRun(g, inputs);
    NothingRun(RestoreGate(cps, 1), inputs);
  }

  lemma {:induction false} NothingRun(g: Gate, inputs: seq<Input>)
    requires SoundGate(g)
    ensures Run(g, 1, inputs[..0]) == g
  {
  }

  lemma {:induction false} OneInput(stream: Stream, key: Key)
    ensures Run(EMPTY, 1, [Input(stream, 0, key)]) == map[stream := AdmitState(FRESH, 0, key, 1)]
  {
    hide AdmitState, Sound;
    assert [Input(stream, 0, key)][..0] == [];
  }

  lemma {:induction false} OneCheckpoint(stream: Stream, key: Key)
    ensures RestoreGate([Checkpoint(stream, 1, [])], 1) == map[stream := RestoreState(FRESH, 1, 1)]
  {
    hide RestoreState, Sound, RestoreGate;
    var cps := [Checkpoint(stream, 1, [])];
    assert cps[..1] == cps;
    RestoreNone(cps[..0], 1);
    RestoreFresh(StreamState({key}, map[0 := key], {}, 1, 0), 1);
    RestoreOne(cps, 1, 1);
  }

  lemma {:induction false} FirstDelivered(key: Key)
    ensures var st, r := AdmitState(FRESH, 0, key, 1), RestoreState(FRESH, 1, 1);
      && st == StreamState({key}, map[0 := key], {}, 1, 0) && Lists([], st)
      && Decide(st, 1, key) == Duplicate && Decide(r, 1, key) == Delivered
  {
    var st := AdmitState(FRESH, 0, key, 1);
    assert Drain(Floor(1, {})) == Floor(1, {});
    assert {} + {key} == {key} && (map[])[0 := key] == map[0 := key];
    assert st == StreamState({key}, map[0 := key], {}, 1, 0);
    assert AboveWatermark(st) == map[];
  }
}
