/**
 The crash-safe offset store: an append-only log, synced before each acknowledgement, repaired when it
 is opened, and compacted through a temporary file and an atomic rename.

 The disk records what a crash may undo: bytes appended after the last sync may be cut at any point,
 and a rename or truncation may be undone until it is synced.
 */
module FileOffsets {
  import opened Wrappers
  import opened Bytes
  import opened OffsetLog

  const COMPACT_MIN_RECORDS: nat := 1024
  const COMPACT_GROWTH_FACTOR: nat := 4

  /** The store's directory: the live log, how much of it is synced, the earlier content a crash may
      bring back while a rename or truncation is not yet durable, and the temporary file. */
  datatype Disk = Disk(log: bytes, synced: nat, shadow: Option<bytes>, tmp: Option<bytes>)

  /** The live log a crash may leave behind. */
  ghost predicate CrashesTo(d: Disk, left: bytes) {
    || (d.shadow.Some? && left == d.shadow.value)
    || exists n :: d.synced <= n <= |d.log| && left == d.log[..n]
  }

  function Appended(d: Disk, b: bytes): Disk {
    d.(log := d.log + b)
  }

  function Synced(d: Disk): Disk {
    d.(synced := |d.log|, shadow := None)
  }

  function TmpWritten(d: Disk, b: bytes): Disk {
    d.(tmp := Some(b))
  }

  /** The temporary file, already synced, replaces the live log. */
  function Renamed(d: Disk, b: bytes): Disk {
    Disk(b, |b|, Some(d.log), None)
  }

  function Truncated(d: Disk, n: nat): Disk
    requires n <= |d.log|
  {
    Disk(d.log[..n], n, Some(d.log), d.tmp)
  }

  function NeedsCompaction(records: nat, live: nat): bool {
    records >= COMPACT_MIN_RECORDS && records > COMPACT_GROWTH_FACTOR * (if live < 1 then 1 else live)
  }

  datatype Store = Store(disk: Disk, offsets: map<Group, nat>, records: nat)

  /** Between operations: everything synced, and memory agreeing with a replay of the log. */
  ghost predicate Live(c: Codec, s: Store) {
    && s.disk.synced == |s.disk.log| && s.disk.shadow.None?
    && Replay(c, s.disk.log) == Recovery(s.offsets, s.records, |s.disk.log|)
    && StorableMap(c, s.offsets)
  }

  // ----- The operations, as the disk states they pass through -----

  function AppendTrace(d: Disk, b: bytes): seq<Disk> {
    [Appended(d, b), Synced(Appended(d, b))]
  }

  function RewriteTrace(d: Disk, b: bytes): seq<Disk> {
    [TmpWritten(d, b), Renamed(d, b), Synced(Renamed(d, b))]
  }

  /** The store after its log has been replaced by a snapshot of `m`. */
  function Rewritten(c: Codec, s: Store, m: map<Group, nat>, listing: seq<Put>): Store {
    Store(Synced(Renamed(s.disk, EncodeAll(c, listing))), m, |m|)
  }

  /** The store after the puts are appended and acknowledged in memory, before any compaction. */
  function PutsApplied(c: Codec, s: Store, puts: seq<Put>): Store {
    Store(Synced(Appended(s.disk, EncodeAll(c, puts))), Apply(s.offsets, puts), s.records + |puts|)
  }

  /** The store after one commit; `listing` is the order a compaction writes the groups in. */
  function Committed(c: Codec, s: Store, puts: seq<Put>, listing: seq<Put>): Store {
    var t := PutsApplied(c, s, puts);
    if NeedsCompaction(t.records, |t.offsets|) then Rewritten(c, t, t.offsets, listing) else t
  }

  function CommitTrace(c: Codec, s: Store, puts: seq<Put>, listing: seq<Put>): seq<Disk> {
    var t := PutsApplied(c, s, puts);
    AppendTrace(s.disk, EncodeAll(c, puts)) +
      if NeedsCompaction(t.records, |t.offsets|) then RewriteTrace(t.disk, EncodeAll(c, listing)) else []
  }

  function Opened(c: Codec, left: bytes): Store {
    var r := Replay(c, left);
    if r.intact <= |left| then Store(Disk(left[..r.intact], r.intact, None, None), r.offsets, r.records)
    else Store(Disk(left, |left|, None, None), r.offsets, r.records)
  }

  // ----- What each disk state recovers to -----

  /** Whatever a crash in state `d` leaves, reopening finds `before` plus a prefix of `puts`. */
  ghost predicate RecoversPrefix(c: Codec, d: Disk, before: map<Group, nat>, puts: seq<Put>) {
    forall left: bytes {:trigger CrashesTo(d, left)} :: CrashesTo(d, left) ==>
      exists n :: 0 <= n <= |puts| && Replay(c, left).offsets == Apply(before, puts[..n])
  }

  /** Whatever a crash in state `d` leaves, reopening finds `a` or `b`. */
  ghost predicate RecoversEither(c: Codec, d: Disk, a: map<Group, nat>, b: map<Group, nat>) {
    forall left: bytes {:trigger CrashesTo(d, left)} :: CrashesTo(d, left) ==>
      Replay(c, left).offsets == a || Replay(c, left).offsets == b
  }

  lemma {:induction false} LiveRecovers(c: Codec, s: Store)
    requires Live(c, s)
    ensures RecoversEither(c, s.disk, s.offsets, s.offsets)
  {
    hide Replay;
    forall left: bytes {:trigger CrashesTo(s.disk, left)} | CrashesTo(s.disk, left)
      ensures Replay(c, left).offsets == s.offsets
    {
      assert s.disk.log[..|s.disk.log|] == s.disk.log;
    }
  }

  /** An append cut at any byte recovers a prefix of the puts; completed, all of them. */
  lemma {:induction false} AppendRecovers(c: Codec, s: Store, puts: seq<Put>, cut: nat) returns (n: nat)
    requires Live(c, s) && AllStorable(c, puts) && cut <= |EncodeAll(c, puts)|
    ensures n <= |puts| && (cut == |EncodeAll(c, puts)| ==> n == |puts|)
    ensures Replay(c, s.disk.log + EncodeAll(c, puts)[..cut]) ==
      Recovery(Apply(s.offsets, puts[..n]), s.records + n, |s.disk.log| + |EncodeAll(c, puts[..n])|)
  {
    hide ReplayFrom, EncodeAll;
    ReplayAppend(c, s.disk.log, EncodeAll(c, puts)[..cut], NOTHING);
    n := ReplayPuts(c, puts, cut, Recovery(s.offsets, s.records, |s.disk.log|));
  }

  lemma {:induction false} AppendedRecovers(c: Codec, s: Store, puts: seq<Put>)
    requires Live(c, s) && AllStorable(c, puts)
    ensures RecoversPrefix(c, Appended(s.disk, EncodeAll(c, puts)), s.offsets, puts)
  {
    hide Replay, EncodeAll, Live;
    LiveFacts(c, s);
    var d := Appended(s.disk, EncodeAll(c, puts));
    forall left: bytes {:trigger CrashesTo(d, left)} | CrashesTo(d, left)
      ensures exists n :: 0 <= n <= |puts| && Replay(c, left).offsets == Apply(s.offsets, puts[..n])
    {
      var m :| d.synced <= m <= |d.log| && left == d.log[..m];
      var cut := m - |s.disk.log|;
      assert left == s.disk.log + EncodeAll(c, puts)[..cut];
      var n := AppendRecovers(c, s, puts, cut);
    }
  }

  lemma {:induction false} LiveFacts(c: Codec, s: Store)
    requires Live(c, s)
    ensures s.disk.synced == |s.disk.log| && s.disk.shadow.None?
    ensures Replay(c, s.disk.log) == Recovery(s.offsets, s.records, |s.disk.log|)
  {
  }

  lemma {:induction false} StorableAfter(c: Codec, m: map<Group, nat>, puts: seq<Put>)
    requires StorableMap(c, m) && AllStorable(c, puts)
    ensures StorableMap(c, Apply(m, puts))
    decreases |puts|
  {
    if puts != [] {
      StorableAfter(c, m[puts[0].group := puts[0].offset], puts[1..]);
    }
  }

  lemma {:induction false} PutsAppliedLive(c: Codec, s: Store, puts: seq<Put>)
    requires Live(c, s) && AllStorable(c, puts)
    ensures Live(c, PutsApplied(c, s, puts))
  {
    hide Replay, EncodeAll;
    var enc := EncodeAll(c, puts);
    var n := AppendRecovers(c, s, puts, |enc|);
    assert enc[..|enc|] == enc && puts[..|puts|] == puts;
    StorableAfter(c, s.offsets, puts);
  }

  /** The snapshot a rewrite puts in place replays to exactly its map. */
  lemma {:induction false} SnapshotReplays(c: Codec, m: map<Group, nat>, listing: seq<Put>)
    requires StorableMap(c, m) && Snapshot(listing, m)
    ensures AllStorable(c, listing)
    ensures Replay(c, EncodeAll(c, listing)) == Recovery(m, |m|, |EncodeAll(c, listing)|)
  {
    hide ReplayFrom, EncodeAll;
    var enc := EncodeAll(c, listing);
    forall i | 0 <= i < |listing| ensures Storable(c, listing[i]) {
      assert listing[i] == Put(listing[i].group, m[listing[i].group]);
    }
    var n := ReplayPuts(c, listing, |enc|, NOTHING);
    assert enc[..|enc|] == enc && listing[..|listing|] == listing;
    SnapshotApplies(listing, m);
  }

  /** Every state of a rewrite recovers the old map or the new one, never a mixture. */
  lemma {:induction false} RewriteRecovers(c: Codec, s: Store, m: map<Group, nat>, listing: seq<Put>, i: nat)
    requires Live(c, s) && StorableMap(c, m) && Snapshot(listing, m) && i < 3
    ensures RecoversEither(c, RewriteTrace(s.disk, EncodeAll(c, listing))[i], s.offsets, m)
    ensures Live(c, Rewritten(c, s, m, listing))
  {
    hide Replay, EncodeAll;
    var enc := EncodeAll(c, listing);
    SnapshotReplays(c, m, listing);
    var d := RewriteTrace(s.disk, enc)[i];
    forall left: bytes {:trigger CrashesTo(d, left)} | CrashesTo(d, left)
      ensures Replay(c, left).offsets == s.offsets || Replay(c, left).offsets == m
    {
      assert s.disk.log[..|s.disk.log|] == s.disk.log && enc[..|enc|] == enc;
    }
  }

  /** Reopening repairs the log: memory and disk agree again, whatever the tail was. */
  lemma {:induction false} OpenedLive(c: Codec, left: bytes)
    ensures Live(c, Opened(c, left)) && Opened(c, left).offsets == Replay(c, left).offsets
  {
    hide ReplayFrom;
    ReplayTruncated(c, left, NOTHING);
    ReplayStorable(c, left, NOTHING);
  }

  /** A crash while the repair is being made leaves a log that recovers the same. */
  lemma {:induction false} RepairRecovers(c: Codec, left: bytes, again: bytes)
    requires var r := Replay(c, left);
      r.intact <= |left| && CrashesTo(Truncated(Disk(left, |left|, None, None), r.intact), again)
    ensures Replay(c, again).offsets == Replay(c, left).offsets
  {
    hide ReplayFrom;
    ReplayTruncated(c, left, NOTHING);
    var r := Replay(c, left);
    assert left[..r.intact][..r.intact] == left[..r.intact];
  }

  lemma {:induction false} CommittedLive(c: Codec, s: Store, puts: seq<Put>, listing: seq<Put>)
    requires Live(c, s) && AllStorable(c, puts) && Snapshot(listing, Apply(s.offsets, puts))
    ensures Live(c, Committed(c, s, puts, listing))
    ensures var t := Committed(c, s, puts, listing);
      var appended, groups := s.records + |puts|, |Apply(s.offsets, puts)|;
      && t.offsets == Apply(s.offsets, puts)
      && t.records == (if appended >= 1024 && appended > 4 * groups then groups else appended)
      && (t.records < 1024 || t.records <= 4 * groups)
  {
    hide Live, Replay, EncodeAll;
    PutsAppliedLive(c, s, puts);
    var t := PutsApplied(c, s, puts);
    LiveStorable(c, t);
    if NeedsCompaction(t.records, |t.offsets|) {
      RewriteRecovers(c, t, t.offsets, listing, 0);
    }
  }

  lemma {:induction false} LiveStorable(c: Codec, s: Store)
    requires Live(c, s)
    ensures StorableMap(c, s.offsets)
  {
  }

  /** Every state a commit passes through recovers the old map plus a prefix of its puts. */
  lemma {:induction false} CommitRecovers(c: Codec, s: Store, puts: seq<Put>, listing: seq<Put>, i: nat)
    requires Live(c, s) && AllStorable(c, puts) && Snapshot(listing, Apply(s.offsets, puts))
    requires i < |CommitTrace(c, s, puts, listing)|
    ensures RecoversPrefix(c, CommitTrace(c, s, puts, listing)[i], s.offsets, puts)
  {
    hide Live, Replay, EncodeAll, CrashesTo;
    PutsAppliedLive(c, s, puts);
    var t := PutsApplied(c, s, puts);
    var d := CommitTrace(c, s, puts, listing)[i];
    if i == 0 {
      AppendedRecovers(c, s, puts);
    } else {
      if i == 1 {
        LiveRecovers(c, t);
      } else {
        LiveStorable(c, t);
        RewriteRecovers(c, t, t.offsets, listing, i - 2);
      }
      assert RecoversEither(c, d, t.offsets, t.offsets);
      assert puts[..|puts|] == puts;
    }
  }

  lemma {:induction false} SnapshotExists(m: map<Group, nat>) returns (listing: seq<Put>)
    ensures Snapshot(listing, m)
    decreases |m|
  {
    if m.Keys == {} {
      listing := [];
    } else {
      var g :| g in m.Keys;
      var rest := m - {g};
      assert rest.Keys == m.Keys - {g};
      listing := SnapshotExists(rest);
      assert forall i :: 0 <= i < |listing| ==> listing[i].group in rest;
      listing := [Put(g, m[g])] + listing;
    }
  }

  class OffsetFile {
    const codec: Codec
    var disk: Disk
    var offsets: map<Group, nat>
    var records: nat
    ghost var trace: seq<Disk>

    ghost function State(): Store
      reads this
    {
      Store(disk, offsets, records)
    }

    /** Open a directory whose log holds `left`: replay it and cut off a torn tail. */
    constructor Open(c: Codec, left: bytes, stale: Option<bytes>)
      ensures codec == c && State() == Opened(c, left) && Live(c, State())
    {
      var d := Disk(left, |left|, None, stale);
      d := d.(tmp := None); // a stale temporary file is dropped
      var r := ReplayFile(c, left);
      OpenedLive(c, left);
      if r.intact < |left| {
        d := Synced(Truncated(d, r.intact));
      }
      assert left[..|left|] == left;
      codec, disk, offsets, records := c, d, r.offsets, r.records;
      trace := [];
    }

    method EncodePuts(puts: seq<Put>) returns (r: Option<bytes>)
      ensures r.None? <==> exists i :: 0 <= i < |puts| && |puts[i].group| >= Pow256(4)
      ensures r.Some? ==> r.value == EncodeAll(codec, puts)
    {
      hide Encode, Pow256;
      var out: bytes := [];
      assert puts[0..] == puts;
      for i := 0 to |puts|
        invariant forall j :: 0 <= j < i ==> |puts[j].group| < Pow256(4)
        invariant out + EncodeAll(codec, puts[i..]) == EncodeAll(codec, puts)
      {
        if |puts[i].group| >= Pow256(4) {
          return None;
        }
        assert puts[i..][1..] == puts[i + 1..];
        out := out + Encode(codec, puts[i]);
      }
      assert out + [] == out;
      return Some(out);
    }

    /** Commit several puts under one sync; a name too long for the format fails with nothing written. */
    method CommitMany(puts: seq<Put>) returns (ok: bool, ghost listing: seq<Put>)
      requires Live(codec, State())
      requires forall i :: 0 <= i < |puts| ==> codec.utf8(puts[i].group) && puts[i].offset < Pow256(8)
      modifies this
      ensures ok <==> AllStorable(codec, puts)
      ensures !ok ==> State() == old(State()) && trace == old(trace)
      ensures ok ==>
        && Snapshot(listing, Apply(old(offsets), puts))
        && State() == Committed(codec, old(State()), puts, listing)
        && trace == old(trace) + CommitTrace(codec, old(State()), puts, listing)
      ensures Live(codec, State())
    {
      hide Live, EncodeAll, Replay, Snapshot, AppendTrace, RewriteTrace, Rewritten, Apply;
      listing := [];
      var encoded := EncodePuts(puts);
      if encoded.None? {
        return false, listing;
      }
      ghost var before := State();
      assert AllStorable(codec, puts);
      AppendSynced(puts, encoded.value);
      if NeedsCompaction(records, |offsets|) {
        LiveStorable(codec, State());
        var _, groups := RewriteMap(offsets);
        listing := groups;
      } else {
        listing := SnapshotExists(offsets);
        assert trace == old(trace) + (AppendTrace(before.disk, encoded.value) + []);
      }
      CommittedLive(codec, before, puts, listing);
      return true, listing;
    }

    /** Write the encoded puts, sync, and update memory. */
    method AppendSynced(puts: seq<Put>, encoded: bytes)
      requires Live(codec, State()) && AllStorable(codec, puts) && encoded == EncodeAll(codec, puts)
      modifies this
      ensures State() == PutsApplied(codec, old(State()), puts) && Live(codec, State())
      ensures trace == old(trace) + AppendTrace(old(disk), encoded)
    {
      hide Live, EncodeAll;
      PutsAppliedLive(codec, State(), puts);
      disk := Appended(disk, encoded);
      trace := trace + [disk];
      disk := Synced(disk);
      trace := trace + [disk];
      offsets := InsertAll(puts);
      records := records + |puts|;
    }

    /** The in-memory half of a commit. */
    method InsertAll(puts: seq<Put>) returns (m: map<Group, nat>)
      ensures m == Apply(offsets, puts)
    {
      m := offsets;
      assert puts[0..] == puts;
      for i := 0 to |puts|
        invariant Apply(m, puts[i..]) == Apply(offsets, puts)
      {
        assert puts[i..][1..] == puts[i + 1..];
        m := m[puts[i].group := puts[i].offset];
      }
    }

    /**
     Replace the log by a snapshot of `m`: temporary file, sync, rename, directory sync. A name too long for the
     format fails with an empty temporary file and nothing else.
     */
    method RewriteMap(m: map<Group, nat>) returns (ok: bool, listing: seq<Put>)
      requires Live(codec, State()) && Typed(codec, m)
      modifies this
      ensures Snapshot(listing, m) && (ok <==> StorableMap(codec, m))
      ensures ok ==>
        && State() == Rewritten(codec, old(State()), m, listing)
        && trace == old(trace) + RewriteTrace(old(disk), EncodeAll(codec, listing))
      ensures !ok ==>
        && State() == old(State()).(disk := TmpWritten(old(disk), []))
        && trace == old(trace) + [TmpWritten(old(disk), [])]
      ensures Live(codec, State())
    {
      hide Live, EncodeAll, Replay;
      ghost var before := State();
      listing := ListMap(m);
      var snapshot := EncodePuts(listing);
      if snapshot.None? {
        LiveWithTmp(codec, before, []);
        disk := TmpWritten(disk, []);
        trace := trace + [disk];
        return false, listing;
      }
      assert StorableMap(codec, m) by { ListedStorable(codec, m, listing); }
      SnapshotReplays(codec, m, listing);
      RewriteRecovers(codec, before, m, listing, 0);
      disk := TmpWritten(disk, snapshot.value);
      trace := trace + [disk];
      disk := Renamed(disk, snapshot.value);
      trace := trace + [disk];
      records := |m|;
      disk := Synced(disk);
      trace := trace + [disk];
      offsets := m;
      return true, listing;
    }

    /**
     Put captured values back through an atomic replacement; None means the group did not exist. It fails exactly when
     a name in the restored map does not fit the format, and then serves what it served.
     */
    method RestoreMany(snapshots: seq<(Group, Option<nat>)>) returns (ok: bool, ghost listing: seq<Put>)
      requires Live(codec, State())
      requires forall i :: 0 <= i < |snapshots| && snapshots[i].1.Some? ==>
        codec.utf8(snapshots[i].0) && snapshots[i].1.value < Pow256(8)
      modifies this
      ensures ok <==> StorableMap(codec, RestoredMap(old(offsets), snapshots))
      ensures ok ==>
        && Snapshot(listing, RestoredMap(old(offsets), snapshots))
        && State() == Rewritten(codec, old(State()), RestoredMap(old(offsets), snapshots), listing)
        && trace == old(trace) + RewriteTrace(old(disk), EncodeAll(codec, listing))
      ensures !ok ==>
        && State() == old(State()).(disk := TmpWritten(old(disk), []))
        && trace == old(trace) + [TmpWritten(old(disk), [])]
      ensures Live(codec, State())
    {
      hide Live, EncodeAll, Pow256, Snapshot, Rewritten, RewriteTrace;
      LiveStorable(codec, State());
      var restored := offsets;
      assert snapshots[0..] == snapshots;
      for i := 0 to |snapshots|
        invariant RestoredMap(restored, snapshots[i..]) == RestoredMap(offsets, snapshots)
        invariant Typed(codec, restored)
      {
        assert snapshots[i..][1..] == snapshots[i + 1..];
        var (group, value) := snapshots[i];
        match value {
          case Some(offset) => restored := restored[group := offset];
          case None => restored := restored - {group};
        }
      }
      var done, groups := RewriteMap(restored);
      return done, groups;
    }
  }

  /** Group names are UTF-8 and offsets 64-bit, as the types of the program say. */
  ghost predicate Typed(c: Codec, m: map<Group, nat>) {
    forall g <- m :: c.utf8(g) && m[g] < Pow256(8)
  }

  lemma {:induction false} ListedStorable(c: Codec, m: map<Group, nat>, listing: seq<Put>)
    requires Typed(c, m) && Snapshot(listing, m)
    requires forall i :: 0 <= i < |listing| ==> |listing[i].group| < Pow256(4)
    ensures StorableMap(c, m)
  {
    hide Pow256;
    SnapshotApplies(listing, m);
    StorableAfter(c, map[], listing);
  }

  lemma {:induction false} LiveWithTmp(c: Codec, s: Store, b: bytes)
    requires Live(c, s)
    ensures Live(c, s.(disk := TmpWritten(s.disk, b)))
  {
    hide Replay;
  }

  function RestoredMap(m: map<Group, nat>, snapshots: seq<(Group, Option<nat>)>): map<Group, nat>
    decreases |snapshots|
  {
    if snapshots == [] then m
    else
      var (group, value) := snapshots[0];
      RestoredMap(match value case Some(offset) => m[group := offset] case None => m - {group}, snapshots[1..])
  }

  /** Restoring a snapshot taken before some puts to the same groups undoes them. */
  lemma {:induction false} RestoreUndoes(m: map<Group, nat>, later: map<Group, nat>, groups: seq<Group>)
    requires forall g :: g !in groups ==> (g in m <==> g in later) && (g in m ==> m[g] == later[g])
    ensures RestoredMap(later, Captured(m, groups)) == m
    decreases |groups|
  {
    if groups == [] {
      assert m.Keys == later.Keys;
    } else {
      var g := groups[0];
      var next := if g in m then later[g := m[g]] else later - {g};
      assert Captured(m, groups)[1..] == Captured(m, groups[1..]);
      RestoreUndoes(m, next, groups[1..]);
    }
  }

  /** The values of some groups, as the snapshot operation captures them. */
  function Captured(m: map<Group, nat>, groups: seq<Group>): seq<(Group, Option<nat>)> {
    seq(|groups|, i requires 0 <= i < |groups| =>
      (groups[i], if groups[i] in m then Some(m[groups[i]]) else None))
  }
}
