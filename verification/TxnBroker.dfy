/**
 The broker's side of a transaction: partition logs, and records buffered under (producer id, epoch, partition)
 until a commit appends them or an abort drops them. A partition whose file ends in torn bytes loses what is written
 behind them; what becomes of an append is a parameter, within what such a file allows.
 */
module TxnBroker {
  import opened Collections
  import opened Wrappers
  import opened TxnCoordinator

  datatype Key = Key(pid: int, epoch: int, part: Part)

  /**
   Each partition's records as a scan of its files finds them, and the length of its index; the partitions whose next
   frame would stand behind torn bytes; and the transactional buffers.
   */
  datatype Store<T> = Store(logs: map<Part, seq<T>>, lengths: map<Part, nat>, torn: set<Part>, buffers: map<Key, seq<T>>)

  function Log<T>(s: Store<T>, p: Part): seq<T> {
    if p in s.logs then s.logs[p] else []
  }

  function Length<T>(s: Store<T>, p: Part): nat {
    if p in s.lengths then s.lengths[p] else 0
  }

  function Buffered<T>(s: Store<T>, k: Key): seq<T> {
    if k in s.buffers then s.buffers[k] else []
  }

  // ----- One append -----

  /**
   What becomes of a batch: of the `written` first records the `lost` first are behind torn bytes; whether the next
   frame would be; whether the batch succeeds, and else whether the index was rebuilt.
   */
  datatype Fate = Fate(lost: nat, written: nat, tears: bool, ok: bool, rescanned: bool)

  /** What can become of a batch of n records, behind torn bytes or not. */
  predicate Possible(torn: bool, n: nat, f: Fate) {
    && f.lost <= f.written <= n && (f.ok ==> f.written == n)
    && (!torn ==> f.lost == 0)
    && (torn && f.written > 0 ==> f.lost > 0)
    && (torn && f.written == 0 ==> f.tears)
    && (f.written == n && (!torn || f.lost < n) ==> !f.tears)
  }

  /** The partition after a batch of this fate. */
  ghost predicate Took<T>(s: Store<T>, t: Store<T>, p: Part, records: seq<T>, f: Fate) {
    && Possible(p in s.torn, |records|, f)
    && Log(t, p) == Log(s, p) + records[f.lost..f.written]
    && (p in t.torn <==> f.tears)
    && Length(t, p) == (if f.ok then Length(s, p) + |records| else if f.rescanned then |Log(t, p)| else Length(s, p))
  }

  ghost predicate Untouched<T>(s: Store<T>, t: Store<T>, p: Part) {
    Log(t, p) == Log(s, p) && (p in t.torn <==> p in s.torn) && Length(t, p) == Length(s, p)
  }

  function Append<T>(s: Store<T>, p: Part, records: seq<T>, f: Fate): Store<T>
    requires f.lost <= f.written <= |records|
  {
    var log := Log(s, p) + records[f.lost..f.written];
    var length := if f.ok then Length(s, p) + |records| else if f.rescanned then |log| else Length(s, p);
    s.(logs := s.logs[p := log], lengths := s.lengths[p := length], torn := if f.tears then s.torn + {p} else s.torn - {p})
  }

  /** How many of the batch were lost, told from the log. */
  ghost function Missing<T>(s: Store<T>, t: Store<T>, p: Part, records: seq<T>): (n: nat)
    ensures n <= |records|
  {
    var n := |records| - (|Log(t, p)| - |Log(s, p)|);
    if 0 <= n <= |records| then n else 0
  }

  /** The partition took the whole batch, for better or worse. */
  ghost predicate Landed<T>(s: Store<T>, t: Store<T>, p: Part, records: seq<T>) {
    Took(s, t, p, records, Fate(Missing(s, t, p, records), |records|, p in t.torn, true, false))
  }

  // ----- Transactions -----

  function Buffer<T>(s: Store<T>, k: Key, records: seq<T>): Store<T> {
    s.(buffers := s.buffers[k := Buffered(s, k) + records])
  }

  /** A buffer of this producer at this epoch or an older one. */
  predicate Outdated(k: Key, pid: int, epoch: int) {
    k.pid == pid && k.epoch <= epoch
  }

  function Without<T>(buffers: map<Key, seq<T>>, pid: int, epoch: int): map<Key, seq<T>> {
    map k | k in buffers && !Outdated(k, pid, epoch) :: buffers[k]
  }

  function Abort<T>(s: Store<T>, pid: int, epoch: int): Store<T> {
    s.(buffers := Without(s.buffers, pid, epoch))
  }

  /** Every partition took exactly its own buffer, in order; the buffers are gone. */
  ghost predicate Committed<T(!new)>(s: Store<T>, t: Store<T>, pid: int, epoch: int) {
    && t.buffers == Without(s.buffers, pid, epoch)
    && (forall p {:trigger Key(pid, epoch, p)} :: Landed(s, t, p, Buffered(s, Key(pid, epoch, p))))
  }

  /** What a failed commit did to one partition: took its buffer and dropped it, or failed at it or before, and kept it. */
  ghost predicate HalfDone<T(!new)>(s: Store<T>, t: Store<T>, k: Key) {
    || (k !in t.buffers && Landed(s, t, k.part, Buffered(s, k)))
    || (k in s.buffers && k in t.buffers && t.buffers[k] == s.buffers[k] &&
        (Untouched(s, t, k.part) || exists f: Fate :: !f.ok && Took(s, t, k.part, s.buffers[k], f)))
  }

  ghost predicate CommitFailed<T(!new)>(s: Store<T>, t: Store<T>, pid: int, epoch: int) {
    && (forall p {:trigger Key(pid, epoch, p)} :: HalfDone(s, t, Key(pid, epoch, p)))
    && (forall k <- t.buffers :: k in s.buffers && t.buffers[k] == s.buffers[k])
    && (forall k <- s.buffers :: !Outdated(k, pid, epoch) ==> k in t.buffers)
  }

  /** The keys of this producer, each once, in whatever order the table gives them. */
  ghost predicate Lists<T(!new)>(s: Store<T>, pid: int, order: seq<Key>) {
    && Distinct(order)
    && (forall k <- order :: k in s.buffers && k.pid == pid)
    && (forall k <- s.buffers :: k.pid == pid ==> k in order)
  }

  /** A fate for each of the keys, possible for those that will be appended. */
  ghost predicate Fated<T>(s: Store<T>, epoch: int, order: seq<Key>, fates: seq<Fate>) {
    |fates| == |order| &&
    forall i | 0 <= i < |order| && order[i].epoch == epoch ::
      Possible(order[i].part in s.torn, |Buffered(s, order[i])|, fates[i])
  }

  class Broker<T(!new)> {
    var logs: map<Part, seq<T>>
    var lengths: map<Part, nat>
    var torn: set<Part>
    var buffers: map<Key, seq<T>>

    ghost function State(): Store<T>
      reads this
    {
      Store(logs, lengths, torn, buffers)
    }

    constructor ()
      ensures State() == Store(map[], map[], {}, map[])
    {
      logs, lengths, torn, buffers := map[], map[], {}, map[];
    }

    /** produce_into: append the batch with this fate, and answer the first offset or fail. */
    method ProduceInto(part: Part, records: seq<T>, fate: Fate) returns (r: Result<nat, ()>)
      requires Possible(part in State().torn, |records|, fate)
      modifies this
      ensures r == if fate.ok then Ok(Length(old(State()), part)) else Err(())
      ensures State() == Append(old(State()), part, records, fate)
    {
      var base := if part in lengths then lengths[part] else 0;
      var log := (if part in logs then logs[part] else []) + records[fate.lost..fate.written];
      logs := logs[part := log];
      torn := if fate.tears then torn + {part} else torn - {part};
      if !fate.ok {
        lengths := lengths[part := if fate.rescanned then |log| else base];
        return Err(());
      }
      lengths := lengths[part := base + |records|];
      return Ok(base);
    }

    /** buffer_txn; `refused` when a record breaks the content contract or the partition's log does not open. */
    method BufferTxn(pid: int, epoch: int, part: Part, records: seq<T>, refused: bool) returns (r: Result<nat, ()>)
      modifies this
      ensures refused ==> r == Err(()) && State() == old(State())
      ensures !refused ==>
                && r == Ok(Length(old(State()), part) + |Buffered(old(State()), Key(pid, epoch, part))|)
                && State() == Buffer(old(State()), Key(pid, epoch, part), records)
    {
      if refused {
        return Err(());
      }
      var k := Key(pid, epoch, part);
      var durable := if part in lengths then lengths[part] else 0;
      var buf := if k in buffers then buffers[k] else [];
      buffers := buffers[k := buf + records];
      return Ok(durable + |buf|);
    }

    method CommitTxn(pid: int, epoch: int, order: seq<Key>, fates: seq<Fate>) returns (ok: bool)
      requires Lists(State(), pid, order) && Fated(State(), epoch, order, fates)
      modifies this
      ensures ok ==> Committed(old(State()), State(), pid, epoch)
      ensures !ok ==> CommitFailed(old(State()), State(), pid, epoch)
    {
      hide Committed, CommitFailed, Append, Took;
      ghost var s := State();
      NothingFlushed(s, pid, epoch, order);
      for i := 0 to |order|
        invariant Flushed(s, State(), pid, epoch, order[..i])
      {
        var k := order[i];
        ghost var t := State();
        Pending(s, t, pid, epoch, order, i);
        if k.epoch == epoch {
          var records := buffers[k];
          StillPossible(s, t, pid, epoch, order, fates, i);
          AppendBuffers(t, k.part, records, fates[i]);
          var r := ProduceInto(k.part, records, fates[i]);
          if r.Err? {
            Failing(s, t, pid, epoch, order, i, fates[i]);
            return false;
          }
          buffers := buffers - {k};
        } else if k.epoch < epoch {
          buffers := buffers - {k};
        }
        Advance(s, t, pid, epoch, order, i, fates[i]);
      }
      Finished(s, State(), pid, epoch, order);
      return true;
    }

    method AbortTxn(pid: int, epoch: int)
      modifies this
      ensures State() == Abort(old(State()), pid, epoch)
    {
      buffers := map k | k in buffers && !(k.pid == pid && k.epoch <= epoch) :: buffers[k];
    }
  }

  // ----- The commit loop -----

  /** What the loop has made of one partition after the keys in `done`. */
  ghost predicate PartDone<T>(s: Store<T>, t: Store<T>, k: Key, done: seq<Key>) {
    if k in done then Landed(s, t, k.part, Buffered(s, k)) else Untouched(s, t, k.part)
  }

  ghost predicate Flushed<T(!new)>(s: Store<T>, t: Store<T>, pid: int, epoch: int, done: seq<Key>) {
    && t.buffers == Kept(s.buffers, pid, epoch, done)
    && (forall p {:trigger Key(pid, epoch, p)} :: PartDone(s, t, Key(pid, epoch, p), done))
  }

  ghost function Kept<T>(buffers: map<Key, seq<T>>, pid: int, epoch: int, done: seq<Key>): map<Key, seq<T>> {
    map k | k in buffers && !(k in done && Outdated(k, pid, epoch)) :: buffers[k]
  }

  /** What the loop does with one key, if it does not fail. */
  ghost function FlushKey<T>(t: Store<T>, k: Key, epoch: int, f: Fate): Store<T>
    requires k.epoch == epoch ==> f.lost <= f.written <= |Buffered(t, k)|
  {
    if k.epoch == epoch then Append(t, k.part, Buffered(t, k), f).(buffers := t.buffers - {k})
    else if k.epoch < epoch then t.(buffers := t.buffers - {k})
    else t
  }

  lemma {:induction false} NothingFlushed<T(!new)>(s: Store<T>, pid: int, epoch: int, order: seq<Key>)
    ensures Flushed(s, s, pid, epoch, order[..0])
  {
  }

  lemma {:induction false} Pending<T(!new)>(s: Store<T>, t: Store<T>, pid: int, epoch: int, order: seq<Key>, i: nat)
    requires Lists(s, pid, order) && i < |order| && Flushed(s, t, pid, epoch, order[..i])
    ensures order[i] in t.buffers && order[i] in s.buffers && t.buffers[order[i]] == s.buffers[order[i]]
    ensures order[i].pid == pid && order[i] !in order[..i]
  {
    hide PartDone;
  }

  lemma {:induction false} StillPossible<T(!new)>(s: Store<T>, t: Store<T>, pid: int, epoch: int, order: seq<Key>,
                                                  fates: seq<Fate>, i: nat)
    requires Lists(s, pid, order) && Fated(s, epoch, order, fates) && i < |order| && order[i].epoch == epoch
    requires Flushed(s, t, pid, epoch, order[..i])
    ensures Possible(order[i].part in t.torn, |Buffered(t, order[i])|, fates[i])
  {
    hide Possible, Lists, Landed, Log, Length;
    Pending(s, t, pid, epoch, order, i);
    assert Key(pid, epoch, order[i].part) == order[i];
    assert PartDone(s, t, order[i], order[..i]);
  }

  lemma {:induction false} AppendTook<T>(t: Store<T>, p: Part, records: seq<T>, f: Fate, q: Part)
    requires Possible(p in t.torn, |records|, f)
    ensures var u := Append(t, p, records, f); Took(t, u, p, records, f) && (q != p ==> Untouched(t, u, q))
  {
  }

  lemma {:induction false} AppendBuffers<T>(t: Store<T>, p: Part, records: seq<T>, f: Fate)
    requires f.lost <= f.written <= |records|
    ensures Append(t, p, records, f).buffers == t.buffers
  {
  }

  /** Only the partition itself counts. */
  lemma {:induction false} SamePart<T>(s: Store<T>, t: Store<T>, s': Store<T>, t': Store<T>, p: Part, records: seq<T>,
                                       f: Fate)
    requires Took(s, t, p, records, f) && Untouched(s, s', p) && Untouched(t, t', p)
    ensures Took(s', t', p, records, f)
  {
  }

  lemma {:induction false} TookIsLanded<T>(s: Store<T>, t: Store<T>, p: Part, records: seq<T>, f: Fate)
    requires Took(s, t, p, records, f) && f.ok
    ensures Landed(s, t, p, records) && Missing(s, t, p, records) == f.lost
  {
  }

  lemma {:induction false} Advance<T(!new)>(s: Store<T>, t: Store<T>, pid: int, epoch: int, order: seq<Key>, i: nat,
                                            f: Fate)
    requires Lists(s, pid, order) && i < |order| && Flushed(s, t, pid, epoch, order[..i])
    requires order[i].epoch == epoch ==> f.ok && Possible(order[i].part in t.torn, |Buffered(t, order[i])|, f)
    ensures Flushed(s, FlushKey(t, order[i], epoch, f), pid, epoch, order[..i + 1])
  {
    hide Append, Lists, Kept, PartDone;
    var k, u := order[i], FlushKey(t, order[i], epoch, f);
    Pending(s, t, pid, epoch, order, i);
    assert order[..i + 1] == order[..i] + [k];
    if k.epoch == epoch {
      AppendBuffers(t, k.part, Buffered(t, k), f);
    }
    KeptAfter(s.buffers, pid, epoch, order[..i], k);
    forall p {:trigger Key(pid, epoch, p)} ensures PartDone(s, u, Key(pid, epoch, p), order[..i + 1]) {
      assert PartDone(s, t, Key(pid, epoch, p), order[..i]);
      AdvancePart(s, t, order[..i], k, epoch, f, Key(pid, epoch, p));
    }
  }

  lemma {:induction false} AdvancePart<T>(s: Store<T>, t: Store<T>, done: seq<Key>, k: Key, epoch: int, f: Fate, q: Key)
    requires PartDone(s, t, q, done) && k !in done && k.pid == q.pid && q.epoch == epoch && Buffered(t, k) == Buffered(s, k)
    requires k.epoch == epoch ==> f.ok && Possible(k.part in t.torn, |Buffered(t, k)|, f)
    ensures PartDone(s, FlushKey(t, k, epoch, f), q, done + [k])
  {
    hide Append, Took, Landed, Log, Length;
    var u := FlushKey(t, k, epoch, f);
    if k.epoch == epoch {
      var v := Append(t, k.part, Buffered(t, k), f);
      AppendTook(t, k.part, Buffered(t, k), f, q.part);
      SameBesideBuffers(v, u, q.part);
      if k == q {
        SamePart(t, v, s, u, q.part, Buffered(s, k), f);
        TookIsLanded(s, u, q.part, Buffered(s, k), f);
      } else if q in done {
        LandedElsewhere(s, t, u, q.part, Buffered(s, q));
      }
    } else {
      SameBesideBuffers(t, u, q.part);
      if q in done {
        LandedElsewhere(s, t, u, q.part, Buffered(s, q));
      }
    }
  }

  lemma {:induction false} SameBesideBuffers<T>(s: Store<T>, t: Store<T>, p: Part)
    requires t == s.(buffers := t.buffers)
    ensures Untouched(s, t, p)
  {
  }

  lemma {:induction false} LandedElsewhere<T>(s: Store<T>, t: Store<T>, u: Store<T>, p: Part, records: seq<T>)
    requires Landed(s, t, p, records) && Untouched(t, u, p)
    ensures Landed(s, u, p, records)
  {
    hide Took;
    var f := Fate(Missing(s, t, p, records), |records|, p in t.torn, true, false);
    SamePart(s, t, s, u, p, records, f);
    TookIsLanded(s, u, p, records, f);
  }

  lemma {:induction false} KeptAfter<T>(buffers: map<Key, seq<T>>, pid: int, epoch: int, done: seq<Key>, k: Key)
    requires k.pid == pid
    ensures Kept(buffers, pid, epoch, done + [k]) ==
            if k.epoch <= epoch then Kept(buffers, pid, epoch, done) - {k} else Kept(buffers, pid, epoch, done)
  {
  }

  lemma {:induction false} NothingLands<T>(s: Store<T>, t: Store<T>, p: Part)
    requires Untouched(s, t, p)
    ensures Landed(s, t, p, [])
  {
  }

  lemma {:induction false} Finished<T(!new)>(s: Store<T>, t: Store<T>, pid: int, epoch: int, order: seq<Key>)
    requires Lists(s, pid, order) && Flushed(s, t, pid, epoch, order)
    ensures Committed(s, t, pid, epoch)
  {
    hide Landed, Untouched;
    assert t.buffers == Without(s.buffers, pid, epoch);
    forall p {:trigger Key(pid, epoch, p)} ensures Landed(s, t, p, Buffered(s, Key(pid, epoch, p))) {
      assert PartDone(s, t, Key(pid, epoch, p), order);
      if Key(pid, epoch, p) !in order {
        NothingLands(s, t, p);
      }
    }
  }

  lemma {:induction false} Failing<T(!new)>(s: Store<T>, t: Store<T>, pid: int, epoch: int, order: seq<Key>, i: nat,
                                            f: Fate)
    requires Lists(s, pid, order) && i < |order| && Flushed(s, t, pid, epoch, order[..i]) && order[i].epoch == epoch
    requires Possible(order[i].part in t.torn, |Buffered(t, order[i])|, f) && !f.ok
    ensures CommitFailed(s, Append(t, order[i].part, Buffered(t, order[i]), f), pid, epoch)
  {
    hide Append, PartDone, HalfDone;
    var k := order[i];
    var u := Append(t, k.part, Buffered(t, k), f);
    Pending(s, t, pid, epoch, order, i);
    assert u.buffers == t.buffers by { AppendBuffers(t, k.part, Buffered(t, k), f); }
    forall p {:trigger Key(pid, epoch, p)} ensures HalfDone(s, u, Key(pid, epoch, p)) {
      assert PartDone(s, t, Key(pid, epoch, p), order[..i]);
      FailingPart(s, t, pid, epoch, order, i, f, p);
    }
  }

  lemma {:induction false} FailingPart<T(!new)>(s: Store<T>, t: Store<T>, pid: int, epoch: int, order: seq<Key>, i: nat,
                                                f: Fate, p: Part)
    requires Lists(s, pid, order) && i < |order| && order[i].epoch == epoch
    requires t.buffers == Kept(s.buffers, pid, epoch, order[..i])
    requires order[i] in t.buffers && order[i].pid == pid && order[i] !in order[..i]
    requires PartDone(s, t, Key(pid, epoch, p), order[..i])
    requires Possible(order[i].part in t.torn, |Buffered(t, order[i])|, f) && !f.ok
    ensures HalfDone(s, Append(t, order[i].part, Buffered(t, order[i]), f), Key(pid, epoch, p))
  {
    hide Append, Took, Landed, Log, Length, Lists;
    var k, q := order[i], Key(pid, epoch, p);
    var u := Append(t, k.part, Buffered(t, k), f);
    AppendTook(t, k.part, Buffered(t, k), f, p);
    AppendBuffers(t, k.part, Buffered(t, k), f);
    if k == q {
      assert Untouched(u, u, p) by { SameBesideBuffers(u, u, p); }
      SamePart(t, u, s, u, p, Buffered(s, k), f);
    } else if q in order[..i] {
      LandedElsewhere(s, t, u, p, Buffered(s, q));
    } else if q !in s.buffers {
      NothingLands(s, u, p);
    }
  }
}
