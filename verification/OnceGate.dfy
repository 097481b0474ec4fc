/**
 The effectively-once admission gate: a dedup index, a contiguous low-watermark with reject-below, a
 reorder horizon that seals stuck gaps, garbage collection behind the watermark, and checkpoints.

 The pure functions say what one admission does to one stream; the class runs the code's loops and is
 proved to do exactly that.
 */
module OnceGate {
  import opened Collections
  import opened Bytes

  type Stream = s: bytes | |s| == 16 witness seq(16, _ => 0)
  type Key = k: bytes | |k| == 32 witness seq(32, _ => 0)

  const MAX_REORDER_HORIZON: nat := 1048576

  datatype Disposition = Delivered | Duplicate

  datatype StreamState = StreamState(
    seen: set<Key>,
    deliveredKeys: map<nat, Key>,
    ahead: set<nat>,
    lowWatermark: nat,
    gcFloor: nat)

  const FRESH := StreamState({}, map[], {}, 0, 0)

  // ----- One admission, as a function -----

  /** Watermark and parked set: what the reorder logic works on. */
  datatype Floor = Floor(low: nat, ahead: set<nat>)

  /** Advance the watermark over the contiguous parked run. */
  function Drain(f: Floor): (g: Floor)
    decreases |f.ahead|
  {
    if f.low in f.ahead then Drain(Floor(f.low + 1, f.ahead - {f.low})) else f
  }

  /** Draining removes exactly the run it steps over. */
  lemma {:induction false} DrainFacts(f: Floor)
    ensures var g := Drain(f);
      && g.ahead <= f.ahead && f.low <= g.low && g.low !in g.ahead
      && (forall s :: s in f.ahead ==> s in g.ahead || f.low <= s < g.low)
      && (forall s :: f.low <= s < g.low ==> s in f.ahead && s !in g.ahead)
    decreases |f.ahead|
  {
    if f.low in f.ahead {
      var rest := f.ahead - {f.low};
      assert forall s :: s in f.ahead ==> s == f.low || s in rest;
      DrainFacts(Floor(f.low + 1, rest));
    }
  }

  ghost predicate Parked(f: Floor) {
    forall s :: s in f.ahead ==> s > f.low
  }

  /** One more than the largest element; zero for the empty set. */
  ghost function Top(s: set<nat>): (t: nat)
    ensures forall x :: x in s ==> x < t
    ensures s != {} ==> t > 0 && t - 1 in s
  {
    if s == {} then 0 else
      var x :| x in s;
      var t := Top(s - {x});
      assert forall y :: y in s ==> y == x || y in s - {x};
      if t <= x then x + 1 else t
  }

  lemma {:induction false} TopMonotone(a: set<nat>, b: set<nat>)
    requires a <= b
    ensures Top(a) <= Top(b)
  {
  }

  /** How far the watermark can still move before nothing is parked above it. */
  ghost function Room(f: Floor): nat {
    if Top(f.ahead) <= f.low then 0 else Top(f.ahead) - f.low
  }

  lemma {:induction false} RoomShrinks(f: Floor)
    requires Parked(f) && f.ahead != {}
    ensures var g := Drain(Floor(f.low + 1, f.ahead)); Parked(g) && Room(g) < Room(f)
  {
    hide Drain;
    DrainFacts(Floor(f.low + 1, f.ahead));
    TopMonotone(Drain(Floor(f.low + 1, f.ahead)).ahead, f.ahead);
  }

  /** Seal the lowest gap until the parked set fits the horizon again. */
  ghost function Seal(f: Floor): (g: Floor)
    requires Parked(f)
    decreases Room(f)
  {
    if |f.ahead| > MAX_REORDER_HORIZON then
      RoomShrinks(f);
      Seal(Drain(Floor(f.low + 1, f.ahead)))
    else f
  }

  /** Sealing forgets no parked number without passing it, and fits the horizon. */
  lemma {:induction false} SealFacts(f: Floor)
    requires Parked(f)
    ensures var g := Seal(f);
      && Parked(g) && g.ahead <= f.ahead && f.low <= g.low && |g.ahead| <= MAX_REORDER_HORIZON
      && (forall s :: s in f.ahead ==> s in g.ahead || s < g.low)
    decreases Room(f)
  {
    hide Drain, Room, Parked;
    if |f.ahead| > MAX_REORDER_HORIZON {
      RoomShrinks(f);
      DrainFacts(Floor(f.low + 1, f.ahead));
      SealFacts(Drain(Floor(f.low + 1, f.ahead)));
    }
  }

  lemma {:induction false} SealStep(f: Floor)
    requires Parked(f) && |f.ahead| > MAX_REORDER_HORIZON
    ensures var g := Drain(Floor(f.low + 1, f.ahead)); Parked(g) && Seal(g) == Seal(f) && Room(g) < Room(f)
  {
    hide Drain, Room, Parked;
    RoomShrinks(f);
  }

  /** Record `sn` as delivered and move the watermark. */
  ghost function Advance(f: Floor, sn: nat): (g: Floor)
    requires Parked(f) && sn >= f.low && sn !in f.ahead
  {
    if sn == f.low then Drain(Floor(f.low + 1, f.ahead))
    else Seal(Floor(f.low, f.ahead + {sn}))
  }

  /** Forget the keys of sequence numbers below `newFloor`. */
  function Collect(st: StreamState, newFloor: nat): (r: StreamState)
    ensures r.lowWatermark == st.lowWatermark && r.ahead == st.ahead
    ensures r.gcFloor == if st.gcFloor < newFloor then newFloor else st.gcFloor
    decreases newFloor - st.gcFloor
  {
    if st.gcFloor >= newFloor then st
    else if st.gcFloor in st.deliveredKeys then
      Collect(st.(seen := st.seen - {st.deliveredKeys[st.gcFloor]},
                  deliveredKeys := st.deliveredKeys - {st.gcFloor},
                  gcFloor := st.gcFloor + 1), newFloor)
    else Collect(st.(gcFloor := st.gcFloor + 1), newFloor)
  }

  function FloorOf(st: StreamState): Floor {
    Floor(st.lowWatermark, st.ahead)
  }

  function Decide(st: StreamState, sn: nat, key: Key): Disposition {
    if sn < st.lowWatermark || key in st.seen || sn in st.deliveredKeys then Duplicate else Delivered
  }

  function Saturating(a: nat, b: nat): nat {
    if a < b then 0 else a - b
  }

  ghost function AdmitState(st: StreamState, sn: nat, key: Key, lag: nat): (r: StreamState)
    requires Sound(st)
  {
    if Decide(st, sn, key) == Duplicate then st
    else
      var f := Advance(FloorOf(st), sn);
      Collect(StreamState(st.seen + {key}, st.deliveredKeys[sn := key], f.ahead, f.low, st.gcFloor),
              Saturating(f.low, lag))
  }

  // ----- What every admission keeps -----

  ghost predicate Injective(m: map<nat, Key>) {
    forall a, b :: a in m && b in m && m[a] == m[b] ==> a == b
  }

  ghost predicate Sound(st: StreamState) {
    && Parked(FloorOf(st))
    && |st.ahead| <= MAX_REORDER_HORIZON
    && st.gcFloor <= st.lowWatermark
    && (forall s :: s in st.ahead ==> s in st.deliveredKeys)
    && (forall s :: s in st.deliveredKeys ==> s in st.ahead || s < st.lowWatermark)
    && (forall s :: s in st.deliveredKeys ==> st.deliveredKeys[s] in st.seen)
    && (forall k :: k in st.seen ==> exists s :: s in st.deliveredKeys && st.deliveredKeys[s] == k)
    && Injective(st.deliveredKeys)
  }

  lemma {:induction false} AdvanceParked(f: Floor, sn: nat)
    requires Parked(f) && sn >= f.low && sn !in f.ahead && |f.ahead| <= MAX_REORDER_HORIZON
    ensures var g := Advance(f, sn);
      && Parked(g) && |g.ahead| <= MAX_REORDER_HORIZON && f.low <= g.low
      && g.ahead <= f.ahead + {sn}
      && (forall s :: s in f.ahead + {sn} ==> s in g.ahead || s < g.low)
  {
    hide Drain, Seal;
    if sn == f.low {
      DrainFacts(Floor(f.low + 1, f.ahead));
      SubsetSize(Drain(Floor(f.low + 1, f.ahead)).ahead, f.ahead);
    } else {
      SealFacts(Floor(f.low, f.ahead + {sn}));
    }
  }

  /** The sealing-free fields of a state during collection. */
  ghost predicate Indexed(st: StreamState) {
    && (forall s :: s in st.deliveredKeys ==> st.deliveredKeys[s] in st.seen)
    && (forall k :: k in st.seen ==> exists s :: s in st.deliveredKeys && st.deliveredKeys[s] == k)
    && Injective(st.deliveredKeys)
  }

  /** Collection drops index entries below the new floor together with their keys, and nothing else. */
  lemma {:induction false} CollectIndexed(st: StreamState, newFloor: nat)
    requires Indexed(st)
    ensures var r := Collect(st, newFloor);
      && Indexed(r)
      && r.deliveredKeys.Keys <= st.deliveredKeys.Keys
      && (forall s :: s in r.deliveredKeys ==> r.deliveredKeys[s] == st.deliveredKeys[s])
      && (forall s :: s in st.deliveredKeys && s >= newFloor ==> s in r.deliveredKeys)
    decreases newFloor - st.gcFloor
  {
    if st.gcFloor < newFloor {
      if st.gcFloor in st.deliveredKeys {
        var next := st.(seen := st.seen - {st.deliveredKeys[st.gcFloor]},
                        deliveredKeys := st.deliveredKeys - {st.gcFloor},
                        gcFloor := st.gcFloor + 1);
        forall k | k in next.seen ensures exists s :: s in next.deliveredKeys && next.deliveredKeys[s] == k {
          var s :| s in st.deliveredKeys && st.deliveredKeys[s] == k;
          assert s in next.deliveredKeys && next.deliveredKeys[s] == k;
        }
        CollectIndexed(next, newFloor);
      } else {
        CollectIndexed(st.(gcFloor := st.gcFloor + 1), newFloor);
      }
    }
  }

  lemma {:induction false} AdmitSound(st: StreamState, sn: nat, key: Key, lag: nat)
    requires Sound(st)
    ensures Sound(AdmitState(st, sn, key, lag))
  {
    if Decide(st, sn, key) == Delivered {
      var f := Advance(FloorOf(st), sn);
      AdvanceParked(FloorOf(st), sn);
      var mid := StreamState(st.seen + {key}, st.deliveredKeys[sn := key], f.ahead, f.low, st.gcFloor);
      RecordIndexed(st, sn, key, mid);
      CollectIndexed(mid, Saturating(f.low, lag));
    }
  }

  lemma {:induction false} RecordIndexed(st: StreamState, sn: nat, key: Key, mid: StreamState)
    requires Indexed(st) && key !in st.seen && sn !in st.deliveredKeys
    requires mid.seen == st.seen + {key} && mid.deliveredKeys == st.deliveredKeys[sn := key]
    ensures Indexed(mid)
  {
    forall k | k in mid.seen ensures exists s :: s in mid.deliveredKeys && mid.deliveredKeys[s] == k {
      if k == key {
        assert mid.deliveredKeys[sn] == key;
      } else {
        var s :| s in st.deliveredKeys && st.deliveredKeys[s] == k;
        assert mid.deliveredKeys[s] == k;
      }
    }
  }

  // ----- The gate: one state per stream -----

  type Gate = map<Stream, StreamState>

  function StateOf(g: Gate, stream: Stream): StreamState {
    if stream in g then g[stream] else FRESH
  }

  ghost predicate SoundGate(g: Gate) {
    forall s :: s in g ==> Sound(g[s])
  }

  lemma {:induction false} SoundState(g: Gate, stream: Stream)
    requires SoundGate(g)
    ensures Sound(StateOf(g, stream))
    ensures Parked(FloorOf(StateOf(g, stream)))
    ensures forall s :: s in StateOf(g, stream).ahead ==> s in StateOf(g, stream).deliveredKeys
  {
  }

  ghost function Admitted(g: Gate, stream: Stream, sn: nat, key: Key, lag: nat): (r: Gate)
    requires SoundGate(g)
    ensures SoundGate(r)
  {
    SoundState(g, stream);
    AdmitSound(StateOf(g, stream), sn, key, lag);
    g[stream := AdmitState(StateOf(g, stream), sn, key, lag)]
  }

  /** A restored watermark; the code means it for a stream that has seen no traffic. */
  function RestoreState(st: StreamState, watermark: nat, lag: nat): StreamState {
    if watermark > st.lowWatermark then
      var floor := Saturating(watermark, lag);
      var kept := map s | s in st.deliveredKeys && s >= floor :: st.deliveredKeys[s];
      st.(lowWatermark := watermark, gcFloor := floor,
          ahead := (set s | s in st.ahead && s >= watermark),
          deliveredKeys := kept,
          seen := (set k | k in st.seen && k in kept.Values))
    else st
  }

  /** One stream's durable checkpoint. */
  datatype Checkpoint = Checkpoint(stream: Stream, watermark: nat, entries: seq<(nat, Key)>)

  /** `entries` lists `m` in ascending order of its keys. */
  ghost predicate ListsMap(entries: seq<(nat, Key)>, m: map<nat, Key>) {
    && (forall i :: 0 <= i < |entries| ==> entries[i].0 in m && entries[i].1 == m[entries[i].0])
    && (forall s :: s in m ==> exists i :: 0 <= i < |entries| && entries[i].0 == s)
    && (forall i, j :: 0 <= i < j < |entries| ==> entries[i].0 < entries[j].0)
  }

  lemma {:induction false} ListsMapExtend(entries: seq<(nat, Key)>, m: map<nat, Key>, s: nat, k: Key)
    requires ListsMap(entries, m) && forall t :: t in m ==> t < s
    ensures ListsMap(entries + [(s, k)], m[s := k])
  {
    var more := entries + [(s, k)];
    assert more[|entries|] == (s, k);
    var n := m[s := k];
    forall t | t in n ensures exists i :: 0 <= i < |more| && more[i].0 == t {
      if t != s {
        var i :| 0 <= i < |entries| && entries[i].0 == t;
        assert more[i].0 == t;
      }
    }
  }

  /** The part of the index a checkpoint keeps. */
  function AboveWatermark(st: StreamState): map<nat, Key> {
    map s | s in st.deliveredKeys && s >= st.lowWatermark :: st.deliveredKeys[s]
  }

  ghost predicate Lists(entries: seq<(nat, Key)>, st: StreamState) {
    ListsMap(entries, AboveWatermark(st))
  }

  class Once {
    var streams: Gate
    const gcLag: nat

    constructor (gcLag: nat)
      ensures streams == map[] && this.gcLag == gcLag
    {
      streams := map[];
      this.gcLag := gcLag;
    }

    method Admit(stream: Stream, sn: nat, key: Key) returns (d: Disposition)
      requires SoundGate(streams)
      modifies this
      ensures SoundGate(streams)
      ensures d == Decide(StateOf(old(streams), stream), sn, key)
      ensures streams == Admitted(old(streams), stream, sn, key, gcLag)
    {
      hide Sound, AdmitState, Decide;
      SoundState(streams, stream);
      var st;
      st, d := AdmitTo(StateOf(streams, stream), sn, key, gcLag);
      streams := streams[stream := st];
      assert streams == Admitted(old(streams), stream, sn, key, gcLag);
    }

    /** The admission decision and the update of one stream. */
    static method AdmitTo(st0: StreamState, sn: nat, key: Key, lag: nat) returns (st: StreamState, d: Disposition)
      requires Sound(st0)
      ensures d == Decide(st0, sn, key)
      ensures st == AdmitState(st0, sn, key, lag)
    {
      hide Drain, Seal, Collect;
      st := st0;
      if sn < st.lowWatermark {
        return st, Duplicate;
      }
      if key in st.seen {
        return st, Duplicate;
      }
      if sn in st.deliveredKeys {
        return st, Duplicate;
      }
      var low, ahead := st.lowWatermark, st.ahead;
      if sn == low {
        low, ahead := DrainRun(low + 1, ahead);
      } else {
        ahead := ahead + {sn};
        low, ahead := SealGaps(low, ahead);
      }
      st := StreamState(st.seen + {key}, st.deliveredKeys[sn := key], ahead, low, st.gcFloor);
      st := CollectBelow(st, Saturating(low, lag));
      return st, Delivered;
    }

    /** The drain loop: remove the contiguous parked run and step past it. */
    static method DrainRun(low0: nat, ahead0: set<nat>) returns (low: nat, ahead: set<nat>)
      ensures Floor(low, ahead) == Drain(Floor(low0, ahead0))
    {
      low, ahead := low0, ahead0;
      while low in ahead
        invariant Drain(Floor(low, ahead)) == Drain(Floor(low0, ahead0))
        decreases |ahead|
      {
        ahead := ahead - {low};
        low := low + 1;
      }
    }

    /** The sealing loop; it stops because the watermark cannot pass the largest parked number. */
    static method SealGaps(low0: nat, ahead0: set<nat>) returns (low: nat, ahead: set<nat>)
      requires Parked(Floor(low0, ahead0))
      ensures Floor(low, ahead) == Seal(Floor(low0, ahead0))
    {
      low, ahead := low0, ahead0;
      while |ahead| > MAX_REORDER_HORIZON
        invariant Parked(Floor(low, ahead))
        invariant Seal(Floor(low, ahead)) == Seal(Floor(low0, ahead0))
        decreases Room(Floor(low, ahead))
      {
        hide Drain, Seal, Parked, Room;
        SealStep(Floor(low, ahead));
        low, ahead := DrainRun(low + 1, ahead);
      }
    }

    /** The garbage-collection loop. */
    static method CollectBelow(st0: StreamState, newFloor: nat) returns (st: StreamState)
      ensures st == Collect(st0, newFloor)
    {
      st := st0;
      while st.gcFloor < newFloor
        invariant Collect(st, newFloor) == Collect(st0, newFloor)
        decreases newFloor - st.gcFloor
      {
        if st.gcFloor in st.deliveredKeys {
          var k := st.deliveredKeys[st.gcFloor];
          st := st.(seen := st.seen - {k}, deliveredKeys := st.deliveredKeys - {st.gcFloor},
                    gcFloor := st.gcFloor + 1);
        } else {
          st := st.(gcFloor := st.gcFloor + 1);
        }
      }
    }

    method RestoreWatermark(stream: Stream, watermark: nat)
      modifies this
      ensures streams == old(streams)[stream := RestoreState(StateOf(old(streams), stream), watermark, gcLag)]
    {
      var st := StateOf(streams, stream);
      if watermark > st.lowWatermark {
        st := st.(lowWatermark := watermark);
        st := st.(gcFloor := Saturating(watermark, gcLag));
        st := st.(ahead := (set s | s in st.ahead && s >= watermark));
        st := st.(deliveredKeys := (map s | s in st.deliveredKeys && s >= st.gcFloor :: st.deliveredKeys[s]));
        var live := st.deliveredKeys.Values;
        st := st.(seen := (set k | k in st.seen && k in live));
      }
      streams := streams[stream := st];
    }

    /** One checkpoint per known stream. */
    method Checkpoints() returns (cps: seq<Checkpoint>)
      ensures forall i :: 0 <= i < |cps| ==>
        cps[i].stream in streams && cps[i].watermark == streams[cps[i].stream].lowWatermark &&
        Lists(cps[i].entries, streams[cps[i].stream])
      ensures forall s :: s in streams ==> exists i :: 0 <= i < |cps| && cps[i].stream == s
      ensures forall i, j :: 0 <= i < j < |cps| ==> cps[i].stream != cps[j].stream
    {
      hide Lists;
      cps := [];
      var todo := streams.Keys;
      while todo != {}
        invariant todo <= streams.Keys
        invariant forall i :: 0 <= i < |cps| ==>
          cps[i].stream in streams && cps[i].stream !in todo &&
          cps[i].watermark == streams[cps[i].stream].lowWatermark &&
          Lists(cps[i].entries, streams[cps[i].stream])
        invariant forall s :: s in streams ==> s in todo || exists i :: 0 <= i < |cps| && cps[i].stream == s
        invariant forall i, j :: 0 <= i < j < |cps| ==> cps[i].stream != cps[j].stream
        decreases |todo|
      {
        var s :| s in todo;
        var entries := SortedEntries(streams[s]);
        ghost var before := cps;
        cps := cps + [Checkpoint(s, streams[s].lowWatermark, entries)];
        assert cps[|cps| - 1].stream == s;
        assert forall i :: 0 <= i < |before| ==> cps[i] == before[i];
        todo := todo - {s};
      }
    }

    static method SortedEntries(st: StreamState) returns (entries: seq<(nat, Key)>)
      ensures Lists(entries, st)
    {
      entries := [];
      var index := AboveWatermark(st);
      var todo := index.Keys;
      assert index - todo == map[];
      while todo != {}
        invariant todo <= index.Keys && ListsMap(entries, index - todo)
        invariant forall s, t :: s in index && s !in todo && t in todo ==> s < t
        decreases |todo|
      {
        hide ListsMap, AboveWatermark;
        LeastExists(todo);
        var s :| s in todo && IsLeast(s, todo);
        ListsMapExtend(entries, index - todo, s, index[s]);
        entries := entries + [(s, index[s])];
        assert (index - todo)[s := index[s]] == index - (todo - {s});
        todo := todo - {s};
      }
      assert index - todo == index;
    }
  }

  predicate IsLeast(s: nat, a: set<nat>) {
    s in a && forall t :: t in a ==> s <= t
  }

  lemma {:induction false} LeastExists(a: set<nat>)
    requires a != {}
    ensures exists s :: s in a && IsLeast(s, a)
  {
    var x :| x in a;
    if y :| y in a && y < x {
      var below := set t | t in a && t < x;
      assert y in below && x !in below;
      LeastExists(below);
      var z :| z in below && IsLeast(z, below);
      forall t | t in a ensures z <= t {
        assert t < x ==> t in below;
      }
    } else {
      assert IsLeast(x, a);
    }
  }
}
