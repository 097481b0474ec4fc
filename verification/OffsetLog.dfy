/**
 The record format of the durable offset log and its replay.  The checksum and the UTF-8 test are
 arbitrary functions: recovery from a torn tail rests on lengths alone.
 */
module OffsetLog {
  import opened Collections
  import opened Wrappers
  import opened Bytes

  type Word = n: nat | n < 0x1_0000_0000 witness 0

  datatype Codec = Codec(crc: bytes -> Word, utf8: bytes -> bool)

  type Group = bytes

  datatype Put = Put(group: Group, offset: nat)

  /** Group names are Rust strings and offsets are 64-bit, so every put a caller can make is storable
      except for a name longer than a 32-bit length. */
  ghost predicate Storable(c: Codec, p: Put) {
    c.utf8(p.group) && p.offset < Pow256(8) && |p.group| < Pow256(4)
  }

  function Body(p: Put): bytes {
    ToLe(|p.group|, 4) + p.group + ToLe(p.offset, 8)
  }

  function Encode(c: Codec, p: Put): (b: bytes)
    ensures |b| == |p.group| + 16
  {
    Body(p) + ToLe(c.crc(Body(p)), 4)
  }

  function EncodeAll(c: Codec, puts: seq<Put>): bytes {
    if puts == [] then [] else Encode(c, puts[0]) + EncodeAll(c, puts[1..])
  }

  /** One record at the head of `s`: the put and its length in bytes, or None if incomplete or corrupt. */
  function ParseHead(c: Codec, s: bytes): (r: Option<(Put, nat)>)
    ensures r.Some? ==> 16 <= r.value.1 <= |s|
  {
    if |s| < 4 then None
    else
      var groupEnd := 4 + FromLe(s[..4]);
      if |s| < groupEnd + 12 then None
      else if c.crc(s[..groupEnd + 8]) != FromLe(s[groupEnd + 8..groupEnd + 12]) then None
      else if !c.utf8(s[4..groupEnd]) then None
      else Some((Put(s[4..groupEnd], FromLe(s[groupEnd..groupEnd + 8])), groupEnd + 12))
  }

  /** What a replay yields: the latest offset per group, the record count, and the intact length. */
  datatype Recovery = Recovery(offsets: map<Group, nat>, records: nat, intact: nat)

  function ReplayFrom(c: Codec, s: bytes, acc: Recovery): (r: Recovery)
    decreases |s|
  {
    var head := ParseHead(c, s);
    if head.None? then acc
    else
      var (p, len) := head.value;
      ReplayFrom(c, s[len..], Recovery(acc.offsets[p.group := p.offset], acc.records + 1, acc.intact + len))
  }

  const NOTHING := Recovery(map[], 0, 0)

  function Replay(c: Codec, log: bytes): Recovery {
    ReplayFrom(c, log, NOTHING)
  }

  /** The replay loop over a whole file. */
  method ReplayFile(c: Codec, buf: bytes) returns (r: Recovery)
    ensures r == Replay(c, buf) && r.intact <= |buf|
  {
    hide ParseHead;
    r := NOTHING;
    var pos := 0;
    assert buf[0..] == buf;
    while ParseHead(c, buf[pos..]).Some?
      invariant 0 <= pos <= |buf| && r.intact == pos
      invariant ReplayFrom(c, buf[pos..], r) == Replay(c, buf)
      decreases |buf| - pos
    {
      var (p, len) := ParseHead(c, buf[pos..]).value;
      assert buf[pos..][len..] == buf[pos + len..];
      r := Recovery(r.offsets[p.group := p.offset], r.records + 1, r.intact + len);
      pos := pos + len;
    }
  }

  function Apply(m: map<Group, nat>, puts: seq<Put>): map<Group, nat>
    decreases |puts|
  {
    if puts == [] then m else Apply(m[puts[0].group := puts[0].offset], puts[1..])
  }

  // ----- One record -----

  lemma {:induction false} FromLeBound(b: bytes)
    ensures FromLe(b) < Pow256(|b|)
  {
    if b != [] {
      FromLeBound(b[1..]);
    }
  }

  /** A record parses back to itself, whatever follows it. */
  lemma {:induction false} ParseEncoded(c: Codec, p: Put, rest: bytes)
    requires Storable(c, p)
    ensures ParseHead(c, Encode(c, p) + rest) == Some((p, |Encode(c, p)|))
  {
    hide ToLe, FromLe, Pow256;
    var s, g := Encode(c, p) + rest, 4 + |p.group|;
    assert s[..4] == ToLe(|p.group|, 4);
    LeRoundTrip(|p.group|, 4);
    assert s[4..g] == p.group;
    assert s[g..g + 8] == ToLe(p.offset, 8);
    LeRoundTrip(p.offset, 8);
    assert s[..g + 8] == Body(p);
    assert s[g + 8..g + 12] == ToLe(c.crc(Body(p)), 4);
    Widths();
    LeRoundTrip(c.crc(Body(p)), 4);
  }

  /** A record cut short at any byte does not parse. */
  lemma {:induction false} ParseTorn(c: Codec, p: Put, cut: nat)
    requires Storable(c, p) && cut < |Encode(c, p)|
    ensures ParseHead(c, Encode(c, p)[..cut]).None?
  {
    hide ToLe, FromLe, Pow256;
    var s := Encode(c, p)[..cut];
    if cut >= 4 {
      assert s[..4] == ToLe(|p.group|, 4);
      LeRoundTrip(|p.group|, 4);
    }
  }

  /**
   A record damaged anywhere past its length field does not parse: always when only its checksum is damaged, and else
   unless the damaged bytes have the checksum of the true ones.
   */
  lemma {:induction false} DamageDetected(c: Codec, p: Put, s: bytes, rest: bytes)
    requires Storable(c, p) && |s| == |Encode(c, p)| && s[..4] == Encode(c, p)[..4] && s != Encode(c, p)
    ensures var n := |s| - 4;
      && (s[..n] == Body(p) ==> ParseHead(c, s + rest).None?)
      && (s[n..] == Encode(c, p)[n..] ==>
            s[..n] != Body(p) && (ParseHead(c, s + rest).None? || c.crc(s[..n]) == c.crc(Body(p))))
  {
    hide ToLe, FromLe, Pow256;
    var n, t, g := |s| - 4, s + rest, 4 + |p.group|;
    assert s == s[..n] + s[n..];
    assert Encode(c, p)[n..] == ToLe(c.crc(Body(p)), 4);
    assert t[..4] == ToLe(|p.group|, 4);
    LeRoundTrip(|p.group|, 4);
    assert t[..g + 8] == s[..n] && t[g + 8..g + 12] == s[n..];
    Widths();
    LeRoundTrip(c.crc(Body(p)), 4);
    LeInverse(s[n..]);
  }

  /** Parsing looks at its own record only. */
  lemma {:induction false} ParseStable(c: Codec, s: bytes, rest: bytes)
    requires ParseHead(c, s).Some?
    ensures ParseHead(c, s + rest) == ParseHead(c, s)
  {
    hide FromLe;
    var t, g := s + rest, 4 + FromLe(s[..4]);
    assert t[..4] == s[..4];
    assert t[..g + 8] == s[..g + 8] && t[g + 8..g + 12] == s[g + 8..g + 12];
    assert t[4..g] == s[4..g] && t[g..g + 8] == s[g..g + 8];
  }

  // ----- Whole logs -----

  /** The accumulator only shifts the counts. */
  lemma {:induction false} ReplayCounts(c: Codec, s: bytes, acc: Recovery)
    ensures var r := ReplayFrom(c, s, acc); acc.intact <= r.intact <= acc.intact + |s| && acc.records <= r.records
    decreases |s|
  {
    hide ParseHead;
    if ParseHead(c, s).Some? {
      var (p, len) := ParseHead(c, s).value;
      ReplayCounts(c, s[len..], Recovery(acc.offsets[p.group := p.offset], acc.records + 1, acc.intact + len));
    }
  }

  /** A log that is intact to its last byte replays first, then whatever is appended to it. */
  lemma {:induction false} ReplayAppend(c: Codec, s: bytes, rest: bytes, acc: Recovery)
    requires ReplayFrom(c, s, acc).intact == acc.intact + |s|
    ensures ReplayFrom(c, s + rest, acc) == ReplayFrom(c, rest, ReplayFrom(c, s, acc))
    decreases |s|
  {
    hide ParseHead;
    if s == [] {
      assert s + rest == rest;
    } else {
      ReplayCounts(c, s, acc);
      var (p, len) := ParseHead(c, s).value;
      ParseStable(c, s, rest);
      assert (s + rest)[len..] == s[len..] + rest;
      ReplayAppend(c, s[len..], rest, Recovery(acc.offsets[p.group := p.offset], acc.records + 1, acc.intact + len));
    }
  }

  ghost predicate AllStorable(c: Codec, puts: seq<Put>) {
    forall i :: 0 <= i < |puts| ==> Storable(c, puts[i])
  }

  /** Replaying encoded puts, cut anywhere, applies a prefix of them and reports where it ends. */
  lemma {:induction false} ReplayPuts(c: Codec, puts: seq<Put>, cut: nat, acc: Recovery) returns (n: nat)
    requires AllStorable(c, puts) && cut <= |EncodeAll(c, puts)|
    ensures n <= |puts| && (cut == |EncodeAll(c, puts)| ==> n == |puts|)
    ensures ReplayFrom(c, EncodeAll(c, puts)[..cut], acc) ==
      Recovery(Apply(acc.offsets, puts[..n]), acc.records + n, acc.intact + |EncodeAll(c, puts[..n])|)
    ensures |EncodeAll(c, puts[..n])| <= cut
    decreases |puts|
  {
    hide ParseHead, Encode, Storable;
    if puts == [] {
      n := 0;
      assert EncodeAll(c, puts)[..cut] == [];
      ParseEmpty(c);
    } else {
      var p, rest := puts[0], puts[1..];
      var first := Encode(c, p);
      var all := EncodeAll(c, puts);
      if cut < |first| {
        n := 0;
        assert all[..cut] == first[..cut];
        ParseTorn(c, p, cut);
      } else {
        var next := Recovery(acc.offsets[p.group := p.offset], acc.records + 1, acc.intact + |first|);
        var m := ReplayPuts(c, rest, cut - |first|, next);
        n := m + 1;
        assert all[..cut] == first + EncodeAll(c, rest)[..cut - |first|];
        ParseEncoded(c, p, EncodeAll(c, rest)[..cut - |first|]);
        assert all[..cut][|first|..] == EncodeAll(c, rest)[..cut - |first|];
        assert puts[..n][1..] == rest[..m] && puts[..n][0] == p;
      }
    }
  }

  lemma {:induction false} ParseEmpty(c: Codec)
    ensures ParseHead(c, []).None?
  {
  }

  /** Truncating to the intact length loses nothing and leaves nothing unread. */
  lemma {:induction false} ReplayTruncated(c: Codec, s: bytes, acc: Recovery)
    ensures var r := ReplayFrom(c, s, acc);
      && acc.intact <= r.intact <= acc.intact + |s|
      && ReplayFrom(c, s[..r.intact - acc.intact], acc) == r
    decreases |s|
  {
    hide ParseHead;
    ReplayCounts(c, s, acc);
    if ParseHead(c, s).None? {
      assert s[..0] == [];
      ParseEmpty(c);
    } else {
      var (p, len) := ParseHead(c, s).value;
      var next := Recovery(acc.offsets[p.group := p.offset], acc.records + 1, acc.intact + len);
      ReplayTruncated(c, s[len..], next);
      var keep := ReplayFrom(c, s, acc).intact - acc.intact;
      assert s[..keep] == s[..len] + s[len..keep];
      ParseShort(c, s);
      ParseStable(c, s[..len], s[len..keep]);
      assert s[..keep][len..] == s[len..][..keep - len];
    }
  }

  lemma {:induction false} ParseShort(c: Codec, s: bytes)
    requires ParseHead(c, s).Some?
    ensures ParseHead(c, s[..ParseHead(c, s).value.1]) == ParseHead(c, s)
  {
    hide FromLe;
    var g := 4 + FromLe(s[..4]);
    var t := s[..g + 12];
    assert t[..4] == s[..4] && t[..g + 8] == s[..g + 8] && t[g + 8..g + 12] == s[g + 8..g + 12];
    assert t[4..g] == s[4..g] && t[g..g + 8] == s[g..g + 8];
  }

  ghost predicate StorableMap(c: Codec, m: map<Group, nat>) {
    forall g :: g in m ==> Storable(c, Put(g, m[g]))
  }

  lemma {:induction false} ParsedStorable(c: Codec, s: bytes)
    requires ParseHead(c, s).Some?
    ensures Storable(c, ParseHead(c, s).value.0)
  {
    hide FromLe, Pow256;
    var g := 4 + FromLe(s[..4]);
    FromLeBound(s[..4]);
    FromLeBound(s[g..g + 8]);
  }

  lemma {:induction false} ReplayStorable(c: Codec, s: bytes, acc: Recovery)
    requires StorableMap(c, acc.offsets)
    ensures StorableMap(c, ReplayFrom(c, s, acc).offsets)
    decreases |s|
  {
    hide ParseHead, Storable;
    if ParseHead(c, s).Some? {
      var (p, len) := ParseHead(c, s).value;
      ParsedStorable(c, s);
      ReplayStorable(c, s[len..], Recovery(acc.offsets[p.group := p.offset], acc.records + 1, acc.intact + len));
    }
  }

  // ----- Snapshots -----

  /** `puts` lists the map, each group once. */
  ghost predicate Snapshot(puts: seq<Put>, m: map<Group, nat>) {
    && (forall i :: 0 <= i < |puts| ==> puts[i].group in m && puts[i].offset == m[puts[i].group])
    && (forall i, j :: 0 <= i < j < |puts| ==> puts[i].group != puts[j].group)
    && |puts| == |m|
  }

  lemma {:induction false} ApplyAppend(m: map<Group, nat>, a: seq<Put>, b: seq<Put>)
    ensures Apply(m, a + b) == Apply(Apply(m, a), b)
    decreases |a|
  {
    if a == [] {
      assert a + b == b;
    } else {
      assert (a + b)[1..] == a[1..] + b;
      ApplyAppend(m[a[0].group := a[0].offset], a[1..], b);
    }
  }

  lemma {:induction false} ApplyListed(puts: seq<Put>, m: map<Group, nat>, n: nat)
    requires Snapshot(puts, m) && n <= |puts|
    ensures var r := Apply(map[], puts[..n]);
      && |r| == n
      && (forall g :: g in r ==> g in m && r[g] == m[g])
      && (forall i :: n <= i < |puts| ==> puts[i].group !in r)
  {
    if n > 0 {
      ApplyListed(puts, m, n - 1);
      assert puts[..n] == puts[..n - 1] + [puts[n - 1]];
      ApplyAppend(map[], puts[..n - 1], [puts[n - 1]]);
      var r := Apply(map[], puts[..n - 1]);
      assert Apply(r, [puts[n - 1]]) == r[puts[n - 1].group := puts[n - 1].offset];
    }
  }

  /** Applying a snapshot to nothing gives the map back. */
  lemma {:induction false} SnapshotApplies(puts: seq<Put>, m: map<Group, nat>)
    requires Snapshot(puts, m)
    ensures Apply(map[], puts) == m
  {
    ApplyListed(puts, m, |puts|);
    assert puts[..|puts|] == puts;
    var r := Apply(map[], puts);
    EqualSizes(r.Keys, m.Keys);
  }

  method ListMap(m: map<Group, nat>) returns (puts: seq<Put>)
    ensures Snapshot(puts, m)
  {
    puts := [];
    var todo := m.Keys;
    while todo != {}
      invariant todo <= m.Keys && |puts| + |todo| == |m|
      invariant forall i :: 0 <= i < |puts| ==>
        puts[i].group in m && puts[i].group !in todo && puts[i].offset == m[puts[i].group]
      invariant forall i, j :: 0 <= i < j < |puts| ==> puts[i].group != puts[j].group
      decreases |todo|
    {
      var g :| g in todo;
      puts := puts + [Put(g, m[g])];
      todo := todo - {g};
    }
  }
}
