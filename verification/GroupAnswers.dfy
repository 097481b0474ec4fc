/**
 What the calls of a consumer group promise a member that plays along: it joins, its window closes under a leader and a
 protocol of the group's own, the leader's assignment reaches it, and it stays while it beats.
 */
module GroupAnswers {
  import opened Wrappers
  import opened Bytes
  import opened GroupCoordinator
  import opened GroupRuns

  // ----- Expiry and heartbeats -----

  /** Its last heartbeat is not a session timeout old. */
  ghost predicate Beating(g: Group, id: string, now: int) {
    id in g.members && now < g.members[id].lastHeartbeat + g.members[id].sessionTimeout
  }

  /** Expiry keeps exactly the members that beat in time, as they are; a group left empty is reset. */
  lemma {:induction false} ExpireExact(g: Group, now: int)
    ensures var e := Expire(g, now);
      && (forall id :: id in e.members <==> Beating(g, id, now))
      && (forall id <- e.members :: e.members[id] == g.members[id])
      && e.generation == g.generation && e.protocol == g.protocol && e.deadline == g.deadline
      && e.phase == (if e.members == map[] && g.members != map[] then Empty else g.phase)
      && (g.leader.Some? && g.leader.value in e.members ==> e.leader == g.leader)
      && (g.leader.Some? && g.leader.value in g.members && g.leader.value !in e.members ==> e.leader == First(e.members.Keys))
  {
    hide First;
    var living := Living(g.members, now);
    if living.Keys == g.members.Keys {
      assert living == g.members;
    }
    NoFirst();
  }

  lemma {:induction false} NoFirst()
    ensures First({}) == None
  {
  }

  /**
   A heartbeat is answered 0 exactly when the member has beaten in time and the group is stable at its generation; 25
   exactly when it has not, or the group is empty at that generation; 22 for another generation, else 27.
   */
  lemma {:induction false} BeatExact(g: Group, id: string, generation: int, now: int)
    ensures var code := BeatCode(g, id, generation, now);
      && (code == 0 <==> Beating(g, id, now) && g.generation == generation && g.phase.Stable?)
      && (code == 25 <==> !Beating(g, id, now) || (g.generation == generation && g.phase.Empty?))
      && (code == 22 <==> Beating(g, id, now) && g.generation != generation)
      && (code == 27 <==> Beating(g, id, now) && g.generation == generation &&
                          (g.phase.PreparingRebalance? || g.phase.CompletingRebalance?))
  {
    hide Expire, First;
    ExpireExact(g, now);
  }

  /** A member that beat at `now` is still one, whatever expires before its session timeout has passed again. */
  lemma {:induction false} BeatKeepsAlive(g: Group, id: string, now: int, later: int)
    requires Beating(g, id, now) && later < now + g.members[id].sessionTimeout
    ensures var h := Beat(g, id, now); id in Expire(h, later).members && h.generation == g.generation
  {
    hide Expire, First;
    ExpireExact(g, now);
    ExpireExact(Beat(g, id, now), later);
  }

  // ----- Joining -----

  /** The joiner is a member without assignment, and a window is open, the open one or one of a new generation. */
  lemma {:induction false} JoinExact(name: string, g: Group, req: JoinRequest, now: int, delay: int)
    ensures var e, h := Expire(g, now), Register(name, g, req, now, delay);
      var id := JoinedId(name, e, req);
      && h.members.Keys == e.members.Keys + {id} && h.phase.PreparingRebalance?
      && h.members[id] == Joined(req, now) && h.members[id].assignment == None
      && (req.memberId != "" ==> id == req.memberId)
      && h.members[id].lastHeartbeat == now && 1 <= h.members[id].sessionTimeout <= 3_600_000
      && (1 <= req.sessionMs <= 3_600_000 ==> h.members[id].sessionTimeout == req.sessionMs)
      && h.members[id].protocols == seq(|req.protocols|, i requires 0 <= i < |req.protocols| => req.protocols[i].0)
      && (if e.phase.PreparingRebalance? then
            h.generation == g.generation && h.deadline == g.deadline &&
            forall other <- e.members :: other != id ==> h.members[other] == e.members[other]
          else
            h.generation == NextGeneration(g.generation) && h.deadline == Some(now + delay) &&
            forall other <- h.members :: h.members[other].assignment == None)
  {
    hide Expire, First;
    ExpireExact(g, now);
  }

  lemma {:induction false} FirstCommonExact(members: map<string, Member>, protocols: seq<string>)
    ensures var common := FirstCommon(members, protocols);
      if exists p <- protocols :: Common(members, p) then
        common.Some? && exists i | 0 <= i < |protocols| ::
          protocols[i] == common.value && Common(members, protocols[i]) && forall j | 0 <= j < i :: !Common(members, protocols[j])
      else common.None?
    decreases |protocols|
  {
    hide Common;
    if protocols != [] {
      FirstCommonExact(members, protocols[1..]);
      if !Common(members, protocols[0]) && exists p <- protocols :: Common(members, p) {
        var p :| p in protocols && Common(members, p);
        assert p in protocols[1..];
        var i :| 0 <= i < |protocols[1..]| && protocols[1..][i] == FirstCommon(members, protocols[1..]).value &&
          Common(members, protocols[1..][i]) && forall j | 0 <= j < i :: !Common(members, protocols[1..][j]);
        assert protocols[i + 1] == protocols[1..][i];
        assert forall j | 0 < j < i + 1 :: protocols[j] == protocols[1..][j - 1];
      }
    }
  }

  /**
   The protocol chosen is one every member supports, and the first such in the first member's order, whenever there is
   one; else the first member's own first choice, if it has any.
   */
  lemma {:induction false} ProtocolExact(members: map<string, Member>, first: string)
    requires IsFirst(members.Keys, first)
    ensures var wanted, chosen := members[first].protocols, SelectProtocol(members);
      && (chosen.None? <==> wanted == [])
      && (chosen.Some? ==> chosen.value in wanted)
      && ((exists p <- wanted :: forall id <- members :: p in members[id].protocols) ==>
            && chosen.Some? && (forall id <- members :: chosen.value in members[id].protocols)
            && exists i | 0 <= i < |wanted| :: wanted[i] == chosen.value && forall j | 0 <= j < i :: !Common(members, wanted[j]))
      && ((forall p <- wanted :: exists id <- members :: p !in members[id].protocols) && wanted != [] ==>
            chosen == Some(wanted[0]))
  {
    assert first in members;
    FirstUnique(members.Keys, first, First(members.Keys).value);
    var wanted := members[first].protocols;
    FirstCommonExact(members, wanted);
    assert forall p <- wanted :: Common(members, p) <==> forall id <- members :: p in members[id].protocols;
    hide First, FirstCommon, IsFirst;
  }

  /** A window past its deadline closes, under the least member as leader; the members and the generation stay. */
  lemma {:induction false} WindowCloses(g: Group, now: int)
    requires g.phase.PreparingRebalance? && g.members != map[] && g.deadline.Some?
    ensures var h := CloseWindow(g, now);
      if now < g.deadline.value then h == g
      else
        && h.phase.CompletingRebalance? && h.members == g.members && h.generation == g.generation
        && h.leader.Some? && IsFirst(g.members.Keys, h.leader.value) && h.protocol == SelectProtocol(g.members)
  {
    hide SelectProtocol, IsFirst;
    assert g.members.Keys != {};
  }

  // ----- Assignments -----

  /**
   When the leader sends assignments at the group's generation, every member waiting there is answered 0: with the
   last assignment naming it, or with what it had, or with nothing.
   */
  lemma {:induction false} SubmitServesAll(g: Group, leader: string, generation: int, assignments: seq<(string, bytes)>,
                                           id: string)
    requires leader in g.members && g.leader == Some(leader) && g.generation == generation && assignments != []
    requires id in g.members
    ensures var h := Submit(g, leader, generation, assignments);
      && h.phase.Stable? && h.members.Keys == g.members.Keys && h.generation == generation
      && Poll(h, id, generation) ==
         Some(SyncOutcome(0, if GivenTo(assignments, id).Some? then GivenTo(assignments, id).value
                             else if g.members[id].assignment.Some? then g.members[id].assignment.value else []))
  {
    hide GivenTo;
    AssignedGives(g.members, assignments, id);
  }

  /** A waiting SyncGroup of another generation is sent to rejoin, and one of no member is told so. */
  lemma {:induction false} PollExact(g: Group, id: string, generation: int)
    ensures var out := Poll(g, id, generation);
      && (out.None? <==> g.generation == generation && id in g.members && g.members[id].assignment.None? && !g.phase.Stable?)
      && (out.Some? ==>
            && (out.value.code == 27 <==> g.generation != generation)
            && (out.value.code == 25 <==> g.generation == generation && id !in g.members)
            && (out.value.code == 0 || out.value.code == 25 || out.value.code == 27)
            && (out.value.code != 0 ==> out.value.assignment == []))
  {
  }

  /** Leaving takes the member out; if others remain they must rejoin, and a SyncGroup waiting at the old generation knows. */
  lemma {:induction false} LeaveExact(g: Group, id: string, now: int, delay: int, other: string)
    requires id in g.members && other in g.members && other != id
    ensures var h := Leave(g, id, now, delay);
      && h.members.Keys == g.members.Keys - {id} && h.phase.PreparingRebalance? && h.deadline == Some(now + delay)
      && h.generation == NextGeneration(g.generation) && h.generation != g.generation
      && (forall m <- h.members :: h.members[m].assignment == None)
      && Poll(h, other, g.generation) == Some(SyncOutcome(27, []))
      && (g.leader == Some(id) ==> h.leader == First(h.members.Keys)) && (g.leader != Some(id) ==> h.leader == g.leader)
  {
    hide First;
    assert other in g.members - {id};
  }

  // ----- The leader is a member -----

  ghost predicate LeaderIsMember(g: Group) {
    g.leader.Some? ==> g.leader.value in g.members
  }

  lemma {:induction false} ExpireKeepsLeader(g: Group, now: int)
    requires LeaderIsMember(g)
    ensures LeaderIsMember(Expire(g, now))
  {
    hide First;
    ExpireExact(g, now);
    FirstIsIn(Expire(g, now).members.Keys);
  }

  lemma {:induction false} FirstIsIn(ids: set<string>)
    ensures First(ids).Some? ==> First(ids).value in ids
  {
  }

  lemma {:induction false} NextKeepsLeader(g: Group, e: Event)
    requires LeaderIsMember(g)
    ensures LeaderIsMember(GroupAfter(g, e))
  {
    hide First, Expire, SelectProtocol;
    match e
    case Join(name, req, now, delay) => ExpireKeepsLeader(g, now);
    case Close(now) => FirstIsIn(g.members.Keys);
    case Sync(id, generation, assignments) =>
      forall m <- g.members ensures m in Assigned(g.members, assignments) {
        AssignedGives(g.members, assignments, m);
      }
    case Heartbeat(id, now) => ExpireKeepsLeader(g, now);
    case Depart(id, now, delay) => FirstIsIn((g.members - {id}).Keys);
  }

  /** Whatever calls are made, the leader is one of the members. */
  lemma {:induction false} LeaderAlwaysMember(events: seq<Event>)
    ensures LeaderIsMember(After(events).group)
    decreases |events|
  {
    hide GroupAfter, LeaderIsMember, Opens, Takes;
    if events == [] {
      NoLeaderYet();
    } else {
      LeaderAlwaysMember(events[..|events| - 1]);
      NextKeepsLeader(After(events[..|events| - 1]).group, events[|events| - 1]);
    }
  }

  lemma {:induction false} NoLeaderYet()
    ensures LeaderIsMember(START.group)
  {
  }
}
