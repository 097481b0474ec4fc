/** The consumer-group coordinator: join windows, generations, and the assignments a leader hands to its group. */
module GroupCoordinator {
  import opened Wrappers
  import opened Bytes

  const NONE := 0
  const ILLEGAL_GENERATION := 22
  const UNKNOWN_MEMBER_ID := 25
  const REBALANCE_IN_PROGRESS := 27

  const I32_MAX := 0x7fff_ffff

  datatype Phase = Empty | PreparingRebalance | CompletingRebalance | Stable

  datatype Member = Member(subscription: bytes, protocols: seq<string>, assignment: Option<bytes>, lastHeartbeat: int,
                           sessionTimeout: int, rebalanceTimeout: int)

  datatype Group = Group(phase: Phase, generation: int, protocolType: string, protocol: Option<string>,
                         leader: Option<string>, members: map<string, Member>, deadline: Option<int>, memberSeq: nat)

  datatype JoinRequest = JoinRequest(memberId: string, sessionMs: int, rebalanceMs: int, protocolType: string,
                                     protocols: seq<(string, bytes)>)

  datatype JoinOutcome = JoinOutcome(code: int, generation: int, protocol: string, leader: string, memberId: string,
                                     members: map<string, bytes>)

  datatype SyncOutcome = SyncOutcome(code: int, assignment: bytes)

  const NEW_GROUP := Group(Empty, 0, "", None, None, map[], None, 0)

  // ----- The members' order -----

  /** The byte order of member ids, which is the order of the member table. */
  predicate Below(a: string, b: string) {
    b != [] && (a == [] || a[0] < b[0] || (a[0] == b[0] && Below(a[1..], b[1..])))
  }

  lemma {:induction false} BelowTotal(a: string, b: string)
    ensures a == b || Below(a, b) || Below(b, a)
  {
    if a != [] && b != [] && a[0] == b[0] {
      BelowTotal(a[1..], b[1..]);
      assert a[1..] == b[1..] ==> a == [a[0]] + a[1..] && b == [b[0]] + b[1..];
    }
  }

  lemma {:induction false} BelowTransitive(a: string, b: string, c: string)
    requires Below(a, b) && Below(b, c)
    ensures Below(a, c)
  {
    if a != [] && a[0] == b[0] && b[0] == c[0] {
      BelowTransitive(a[1..], b[1..], c[1..]);
    }
  }

  predicate IsFirst(ids: set<string>, id: string) {
    id in ids && forall other <- ids :: other == id || Below(id, other)
  }

  lemma {:induction false} BelowIrreflexive(a: string)
    ensures !Below(a, a)
  {
    if a != [] {
      BelowIrreflexive(a[1..]);
    }
  }

  lemma {:induction false} FirstExists(ids: set<string>) returns (id: string)
    requires ids != {}
    ensures IsFirst(ids, id)
    decreases ids
  {
    id :| id in ids;
    var rest := ids - {id};
    assert ids == rest + {id};
    if rest != {} {
      var other := FirstExists(rest);
      BelowTotal(id, other);
      if Below(id, other) {
        NewFirst(rest, other, id);
      } else {
        id := other;
      }
    }
  }

  lemma {:induction false} FirstUnique(ids: set<string>, a: string, b: string)
    requires IsFirst(ids, a) && IsFirst(ids, b)
    ensures a == b
  {
    if a != b {
      BelowTransitive(a, b, a);
      BelowIrreflexive(a);
    }
  }

  /** The first key of the member table, if it has any. */
  ghost function First(ids: set<string>): (id: Option<string>)
    ensures id.None? <==> ids == {}
    ensures id.Some? ==> IsFirst(ids, id.value)
  {
    if ids == {} then None
    else
      assert exists id :: IsFirst(ids, id) by {
        var id := FirstExists(ids);
      }
      var id :| IsFirst(ids, id);
      Some(id)
  }

  lemma {:induction false} NewFirst(ids: set<string>, id: string, next: string)
    requires IsFirst(ids, id) && Below(next, id)
    ensures IsFirst(ids + {next}, next)
  {
    forall other <- ids | other != id ensures Below(next, other) {
      BelowTransitive(next, id, other);
    }
  }

  method FirstId(ids: set<string>) returns (id: Option<string>)
    ensures id == First(ids)
  {
    id := None;
    var todo := ids;
    while todo != {}
      invariant todo <= ids && (id.None? <==> todo == ids) && (id.Some? ==> IsFirst(ids - todo, id.value))
      decreases todo
    {
      var next :| next in todo;
      if id.None? || Below(next, id.value) {
        if id.Some? {
          NewFirst(ids - todo, id.value, next);
        }
        id := Some(next);
      } else {
        BelowTotal(next, id.value);
      }
      todo := todo - {next};
      assert ids - todo == (ids - (todo + {next})) + {next};
    }
    assert ids - todo == ids;
    if id.Some? {
      FirstUnique(ids, id.value, First(ids).value);
    }
  }

  // ----- What each call does -----

  predicate Alive(m: Member, now: int) {
    now - m.lastHeartbeat < m.sessionTimeout
  }

  function Living(members: map<string, Member>, now: int): map<string, Member> {
    map id | id in members && Alive(members[id], now) :: members[id]
  }

  ghost function Expire(g: Group, now: int): Group {
    var living := Living(g.members, now);
    if living.Keys == g.members.Keys then g
    else if living == map[] then g.(members := living, phase := Empty, leader := None)
    else if g.leader.Some? && g.leader.value !in living then g.(members := living, leader := First(living.Keys))
    else g.(members := living)
  }

  function NextGeneration(n: int): int {
    if n < I32_MAX then n + 1 else 1
  }

  function Unassigned(members: map<string, Member>): map<string, Member> {
    map id | id in members :: members[id].(assignment := None)
  }

  function Clamp(ms: int): int {
    if ms < 0 then 30_000 else if ms < 1 then 1 else if ms > 3_600_000 then 3_600_000 else ms
  }

  function Decimal(n: nat): string {
    if n < 10 then ["0123456789"[n]] else Decimal(n / 10) + ["0123456789"[n % 10]]
  }

  function Joined(req: JoinRequest, now: int): Member {
    Member(if req.protocols == [] then [] else req.protocols[0].1,
           seq(|req.protocols|, i requires 0 <= i < |req.protocols| => req.protocols[i].0),
           None, now, Clamp(req.sessionMs), Clamp(req.rebalanceMs))
  }

  function JoinedId(name: string, g: Group, req: JoinRequest): string {
    if req.memberId == "" then "datarail-" + name + "-" + Decimal(g.memberSeq + 1) else req.memberId
  }

  /** Open a join window: a new generation, in which nobody has an assignment yet. */
  function Reopened(g: Group, deadline: int): Group {
    g.(phase := PreparingRebalance, generation := NextGeneration(g.generation), deadline := Some(deadline),
       members := Unassigned(g.members))
  }

  /** The joining member is in the table, and a window is open. */
  function Admit(g: Group, id: string, req: JoinRequest, now: int, delay: int): Group {
    var h := g.(memberSeq := if req.memberId == "" then g.memberSeq + 1 else g.memberSeq,
                members := g.members[id := Joined(req, now)],
                protocolType := if req.protocolType != "" then req.protocolType else g.protocolType);
    if h.phase.PreparingRebalance? then h else Reopened(h, now + delay)
  }

  ghost function Register(name: string, g: Group, req: JoinRequest, now: int, delay: int): Group {
    var e := Expire(g, now);
    Admit(e, JoinedId(name, e, req), req, now, delay)
  }

  predicate Supports(m: Member, protocol: string) {
    protocol in m.protocols
  }

  predicate Common(members: map<string, Member>, protocol: string) {
    forall id <- members :: Supports(members[id], protocol)
  }

  /** The first of these protocols that every member supports, if any does. */
  function FirstCommon(members: map<string, Member>, protocols: seq<string>): Option<string> {
    if protocols == [] then None
    else if Common(members, protocols[0]) then Some(protocols[0])
    else FirstCommon(members, protocols[1..])
  }

  ghost function SelectProtocol(members: map<string, Member>): Option<string> {
    if members == map[] then None
    else
      var wanted := members[First(members.Keys).value].protocols;
      var common := FirstCommon(members, wanted);
      if common.Some? then common else if wanted == [] then None else Some(wanted[0])
  }

  predicate WindowDue(g: Group, now: int) {
    (g.phase.Empty? || g.phase.PreparingRebalance?) && g.deadline.Some? && now >= g.deadline.value
  }

  ghost function CloseWindow(g: Group, now: int): Group {
    if !WindowDue(g, now) then g
    else g.(phase := CompletingRebalance, leader := First(g.members.Keys), protocol := SelectProtocol(g.members))
  }

  /** The assignments given to those who are members; the last one for a member counts. */
  function Assigned(members: map<string, Member>, assignments: seq<(string, bytes)>): map<string, Member> {
    if assignments == [] then members
    else
      var before := Assigned(members, assignments[..|assignments| - 1]);
      var (id, given) := assignments[|assignments| - 1];
      if id in before then before[id := before[id].(assignment := Some(given))] else before
  }

  predicate Accepts(g: Group, id: string, generation: int, assignments: seq<(string, bytes)>) {
    id in g.members && g.generation == generation && assignments != [] && g.leader == Some(id)
  }

  function Submit(g: Group, id: string, generation: int, assignments: seq<(string, bytes)>): Group {
    if Accepts(g, id, generation, assignments) then
      g.(members := Assigned(g.members, assignments), phase := Stable, deadline := None)
    else g
  }

  /** What a parked SyncGroup would answer now; None keeps it parked. */
  function Poll(g: Group, id: string, generation: int): Option<SyncOutcome> {
    if g.generation != generation then Some(SyncOutcome(REBALANCE_IN_PROGRESS, []))
    else if id !in g.members then Some(SyncOutcome(UNKNOWN_MEMBER_ID, []))
    else if g.members[id].assignment.Some? then Some(SyncOutcome(NONE, g.members[id].assignment.value))
    else if g.phase.Stable? then Some(SyncOutcome(NONE, []))
    else None
  }

  ghost function Beat(g: Group, id: string, now: int): Group {
    var e := Expire(g, now);
    if id in e.members then e.(members := e.members[id := e.members[id].(lastHeartbeat := now)]) else e
  }

  ghost function BeatCode(g: Group, id: string, generation: int, now: int): int {
    var e := Expire(g, now);
    if id !in e.members then UNKNOWN_MEMBER_ID
    else if e.generation != generation then ILLEGAL_GENERATION
    else if e.phase.Stable? then NONE
    else if e.phase.Empty? then UNKNOWN_MEMBER_ID
    else REBALANCE_IN_PROGRESS
  }

  ghost function Leave(g: Group, id: string, now: int, delay: int): Group {
    var rest := g.members - {id};
    if id !in g.members then g
    else if rest == map[] then g.(members := rest, phase := Empty, leader := None, deadline := None)
    else
      var h := g.(members := rest, leader := if g.leader == Some(id) then First(rest.Keys) else g.leader);
      Reopened(h, now + delay)
  }

  // ----- The calls, in place -----

  class Coordinator {
    var groups: map<string, Group>
    const delay: int

    constructor (delay: int)
      ensures groups == map[] && this.delay == delay
    {
      groups, this.delay := map[], delay;
    }

    /** expire_stale on the named group. */
    method ExpireStale(name: string, now: int)
      requires name in groups
      modifies this
      ensures groups == old(groups)[name := Expire(old(groups)[name], now)]
    {
      hide First;
      var g := groups[name];
      var living := Living(g.members, now);
      if living.Keys != g.members.Keys {
        g := g.(members := living);
        if living == map[] {
          g := g.(phase := Empty, leader := None);
        } else if g.leader.Some? && g.leader.value !in living {
          var first := FirstId(living.Keys);
          g := g.(leader := first);
        }
      }
      groups := groups[name := g];
    }

    /** The first half of JoinGroup: everything up to the first park. */
    method RegisterMember(name: string, req: JoinRequest, now: int) returns (id: string)
      modifies this
      ensures var g := if name in old(groups) then old(groups)[name] else NEW_GROUP;
              && groups == old(groups)[name := Register(name, g, req, now, delay)]
              && id == JoinedId(name, Expire(g, now), req)
    {
      hide Expire, Joined, JoinedId, Unassigned;
      if name !in groups {
        groups := groups[name := NEW_GROUP];
      }
      ExpireStale(name, now);
      id := JoinedId(name, groups[name], req);
      Insert(name, id, req, now);
    }

    method Insert(name: string, id: string, req: JoinRequest, now: int)
      requires name in groups
      modifies this
      ensures groups == old(groups)[name := Admit(old(groups)[name], id, req, now, delay)]
    {
      hide Joined, Unassigned;
      var g := groups[name];
      if req.memberId == "" {
        g := g.(memberSeq := g.memberSeq + 1);
      }
      g := g.(members := g.members[id := Joined(req, now)]);
      if req.protocolType != "" {
        g := g.(protocolType := req.protocolType);
      }
      if !g.phase.PreparingRebalance? {
        g := g.(phase := PreparingRebalance, generation := NextGeneration(g.generation), deadline := Some(now + delay),
                members := Unassigned(g.members));
      }
      groups := groups[name := g];
    }

    method ChooseProtocol(members: map<string, Member>) returns (protocol: Option<string>)
      ensures protocol == SelectProtocol(members)
    {
      hide First;
      var first := FirstId(members.Keys);
      if first.None? {
        return None;
      }
      var wanted := members[first.value].protocols;
      for i := 0 to |wanted|
        invariant FirstCommon(members, wanted) == FirstCommon(members, wanted[i..])
      {
        if forall id <- members :: Supports(members[id], wanted[i]) {
          return Some(wanted[i]);
        }
      }
      return if wanted == [] then None else Some(wanted[0]);
    }

    /** One turn of JoinGroup's wait: close the window if it is due. Done when the generation is settled. */
    method TryClose(name: string, now: int) returns (done: bool)
      requires name in groups
      modifies this
      ensures groups == old(groups)[name := CloseWindow(old(groups)[name], now)]
      ensures done <==> groups[name].phase.CompletingRebalance? || groups[name].phase.Stable?
    {
      hide First, SelectProtocol;
      var g := groups[name];
      if g.phase.CompletingRebalance? || g.phase.Stable? {
        return true;
      }
      if g.deadline.Some? && now >= g.deadline.value {
        var leader := FirstId(g.members.Keys);
        var protocol := ChooseProtocol(g.members);
        groups := groups[name := g.(phase := CompletingRebalance, leader := leader, protocol := protocol)];
        return true;
      }
      return false;
    }

    /** JoinGroup's answer once the window has closed: the leader alone gets every member's subscription. */
    method AnswerJoin(name: string, id: string) returns (out: JoinOutcome)
      ensures name !in groups ==> out == JoinOutcome(UNKNOWN_MEMBER_ID, -1, "", "", id, map[])
      ensures name in groups ==>
                var g := groups[name];
                && out.code == NONE && out.generation == g.generation && out.memberId == id
                && out.protocol == (if g.protocol.Some? then g.protocol.value else "")
                && out.leader == (if g.leader.Some? then g.leader.value else "")
                && out.members.Keys == (if g.leader == Some(id) then g.members.Keys else {})
                && forall other <- out.members :: out.members[other] == g.members[other].subscription
    {
      if name !in groups {
        return JoinOutcome(UNKNOWN_MEMBER_ID, -1, "", "", id, map[]);
      }
      var g := groups[name];
      var members := if g.leader == Some(id) then map other | other in g.members :: g.members[other].subscription
                     else map[];
      return JoinOutcome(NONE, g.generation, if g.protocol.Some? then g.protocol.value else "",
                         if g.leader.Some? then g.leader.value else "", id, members);
    }

    /** The first half of SyncGroup. A code ends the call; none leaves it to wait. */
    method SubmitSync(name: string, id: string, generation: int, assignments: seq<(string, bytes)>)
      returns (code: Option<int>)
      modifies this
      ensures name !in old(groups) ==> groups == old(groups) && code == Some(UNKNOWN_MEMBER_ID)
      ensures name in old(groups) ==>
                var g := old(groups)[name];
                && groups == old(groups)[name := Submit(g, id, generation, assignments)]
                && code == if id !in g.members then Some(UNKNOWN_MEMBER_ID)
                           else if g.generation != generation then Some(ILLEGAL_GENERATION) else None
    {
      if name !in groups || id !in groups[name].members {
        return Some(UNKNOWN_MEMBER_ID);
      }
      var g := groups[name];
      if g.generation != generation {
        return Some(ILLEGAL_GENERATION);
      }
      if assignments != [] && g.leader == Some(id) {
        var members := g.members;
        for i := 0 to |assignments|
          invariant members == Assigned(g.members, assignments[..i])
        {
          var (to, given) := assignments[i];
          if to in members {
            members := members[to := members[to].(assignment := Some(given))];
          }
          assert assignments[..i + 1][..i] == assignments[..i];
        }
        assert assignments[..|assignments|] == assignments;
        groups := groups[name := g.(members := members, phase := Stable, deadline := None)];
      }
      return None;
    }

    /** One turn of SyncGroup's wait; past its deadline it gives up where it would have stayed parked. */
    method PollSync(name: string, id: string, generation: int, expired: bool) returns (out: Option<SyncOutcome>)
      ensures name !in groups ==> out == Some(SyncOutcome(UNKNOWN_MEMBER_ID, []))
      ensures name in groups ==>
                var now := Poll(groups[name], id, generation);
                out == if now.None? && expired then Some(SyncOutcome(REBALANCE_IN_PROGRESS, [])) else now
    {
      if name !in groups {
        return Some(SyncOutcome(UNKNOWN_MEMBER_ID, []));
      }
      var g := groups[name];
      if g.generation != generation {
        return Some(SyncOutcome(REBALANCE_IN_PROGRESS, []));
      }
      if id in g.members {
        var m := g.members[id];
        if m.assignment.Some? {
          return Some(SyncOutcome(NONE, m.assignment.value));
        }
        if g.phase.Stable? {
          return Some(SyncOutcome(NONE, []));
        }
        return if expired then Some(SyncOutcome(REBALANCE_IN_PROGRESS, [])) else None;
      }
      return Some(SyncOutcome(UNKNOWN_MEMBER_ID, []));
    }

    method Heartbeat(name: string, id: string, generation: int, now: int) returns (code: int)
      modifies this
      ensures name !in old(groups) ==> groups == old(groups) && code == UNKNOWN_MEMBER_ID
      ensures name in old(groups) ==>
                var g := old(groups)[name];
                groups == old(groups)[name := Beat(g, id, now)] && code == BeatCode(g, id, generation, now)
    {
      hide Expire;
      if name !in groups {
        return UNKNOWN_MEMBER_ID;
      }
      ExpireStale(name, now);
      var g := groups[name];
      if id !in g.members {
        return UNKNOWN_MEMBER_ID;
      }
      groups := groups[name := g.(members := g.members[id := g.members[id].(lastHeartbeat := now)])];
      if g.generation != generation {
        return ILLEGAL_GENERATION;
      }
      match g.phase
      case Stable => return NONE;
      case PreparingRebalance => return REBALANCE_IN_PROGRESS;
      case CompletingRebalance => return REBALANCE_IN_PROGRESS;
      case Empty => return UNKNOWN_MEMBER_ID;
    }

    method LeaveGroup(name: string, id: string, now: int) returns (code: int)
      modifies this
      ensures name !in old(groups) ==> groups == old(groups) && code == UNKNOWN_MEMBER_ID
      ensures name in old(groups) ==>
                var g := old(groups)[name];
                && groups == old(groups)[name := Leave(g, id, now, delay)]
                && code == if id in g.members then NONE else UNKNOWN_MEMBER_ID
    {
      hide First;
      if name !in groups || id !in groups[name].members {
        return UNKNOWN_MEMBER_ID;
      }
      var g := groups[name];
      g := g.(members := g.members - {id});
      if g.members == map[] {
        g := g.(phase := Empty, leader := None, deadline := None);
      } else {
        g := g.(phase := PreparingRebalance, generation := NextGeneration(g.generation), deadline := Some(now + delay));
        if g.leader == Some(id) {
          var first := FirstId(g.members.Keys);
          g := g.(leader := first);
        }
        g := g.(members := Unassigned(g.members));
      }
      groups := groups[name := g];
      return NONE;
    }
  }
}
