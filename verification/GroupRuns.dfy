/** Where a group's assignments come from, over every interleaving of its members' calls. */
module GroupRuns {
  import opened Wrappers
  import opened Bytes
  import opened GroupCoordinator

  /** A SyncGroup whose assignments were taken: by whom, and in which epoch. */
  datatype Submission = Submission(epoch: nat, from: string, assignments: seq<(string, bytes)>)

  /** A group, how many join windows it has opened, and the assignments it took. */
  datatype World = World(group: Group, epoch: nat, taken: seq<Submission>)

  datatype Event =
    | Join(name: string, req: JoinRequest, now: int, delay: int)
    | Close(now: int)
    | Sync(id: string, generation: int, assignments: seq<(string, bytes)>)
    | Heartbeat(id: string, now: int)
    | Depart(id: string, now: int, delay: int)

  const START := World(NEW_GROUP, 0, [])

  ghost function GroupAfter(g: Group, e: Event): Group {
    match e
    case Join(name, req, now, delay) => Register(name, g, req, now, delay)
    case Close(now) => CloseWindow(g, now)
    case Sync(id, generation, assignments) => Submit(g, id, generation, assignments)
    case Heartbeat(id, now) => Beat(g, id, now)
    case Depart(id, now, delay) => Leave(g, id, now, delay)
  }

  /** The event opens a join window. */
  ghost predicate Opens(g: Group, e: Event) {
    match e
    case Join(name, req, now, delay) => !Expire(g, now).phase.PreparingRebalance?
    case Depart(id, now, delay) => id in g.members && g.members - {id} != map[]
    case _ => false
  }

  ghost predicate Takes(g: Group, e: Event) {
    e.Sync? && Accepts(g, e.id, e.generation, e.assignments)
  }

  ghost function Next(w: World, e: Event): World {
    World(GroupAfter(w.group, e),
          if Opens(w.group, e) then w.epoch + 1 else w.epoch,
          if Takes(w.group, e) then w.taken + [Submission(w.epoch, e.id, e.assignments)] else w.taken)
  }

  ghost function After(events: seq<Event>): World {
    if events == [] then START else Next(After(events[..|events| - 1]), events[|events| - 1])
  }

  // ----- What a member's assignment is -----

  /** What these assignments give a member: the last one naming it. */
  function GivenTo(assignments: seq<(string, bytes)>, id: string): Option<bytes> {
    if assignments == [] then None
    else if assignments[|assignments| - 1].0 == id then Some(assignments[|assignments| - 1].1)
    else GivenTo(assignments[..|assignments| - 1], id)
  }

  /** What the epoch's submissions give a member: the last one naming it. */
  function Latest(taken: seq<Submission>, epoch: nat, id: string): Option<bytes> {
    if taken == [] then None
    else
      var last := taken[|taken| - 1];
      if last.epoch == epoch && GivenTo(last.assignments, id).Some? then GivenTo(last.assignments, id)
      else Latest(taken[..|taken| - 1], epoch, id)
  }

  /** The generation of an epoch: it counts up, and starts again at 1 past the largest 32-bit number. */
  function GenerationOf(epoch: nat): int {
    if epoch == 0 then 0 else (epoch - 1) % I32_MAX + 1
  }

  ghost predicate AssignmentsFromLeader(w: World) {
    forall id <- w.group.members :: w.group.members[id].assignment == Latest(w.taken, w.epoch, id)
  }

  ghost predicate Inv(w: World) {
    && AssignmentsFromLeader(w)
    && (forall s <- w.taken :: s.epoch <= w.epoch)
    && (w.group.phase.PreparingRebalance? ==> forall s <- w.taken :: s.epoch < w.epoch)
    && (w.group.phase.Empty? ==> w.group.members == map[])
    && w.group.generation == GenerationOf(w.epoch)
  }

  lemma {:induction false} AssignedGives(members: map<string, Member>, assignments: seq<(string, bytes)>, id: string)
    requires id in members
    ensures Assigned(members, assignments).Keys == members.Keys
    ensures Assigned(members, assignments)[id].assignment ==
            if GivenTo(assignments, id).Some? then GivenTo(assignments, id) else members[id].assignment
    decreases |assignments|
  {
    if assignments != [] {
      AssignedGives(members, assignments[..|assignments| - 1], id);
    }
  }

  lemma {:induction false} NothingYet(taken: seq<Submission>, epoch: nat, id: string)
    requires forall s <- taken :: s.epoch < epoch
    ensures Latest(taken, epoch, id) == None
    decreases |taken|
  {
    if taken != [] {
      NothingYet(taken[..|taken| - 1], epoch, id);
    }
  }

  lemma {:induction false} NextGenerationOf(epoch: nat)
    ensures NextGeneration(GenerationOf(epoch)) == GenerationOf(epoch + 1)
  {
  }

  lemma {:induction false} ExpireFacts(g: Group, now: int)
    ensures var e := Expire(g, now);
            && e.members == Living(g.members, now) && e.generation == g.generation
            && (e.phase == g.phase || (e.phase.Empty? && e.members == map[]))
  {
    hide First;
    if Living(g.members, now).Keys == g.members.Keys {
      assert Living(g.members, now) == g.members;
    }
  }

  lemma {:induction false} ExpireKeeps(w: World, now: int)
    requires Inv(w)
    ensures Inv(w.(group := Expire(w.group, now)))
  {
    hide Expire;
    ExpireFacts(w.group, now);
  }

  /** Opening a window starts an epoch nobody has submitted in. */
  lemma {:induction false} ReopenKeeps(w: World, deadline: int)
    requires (forall s <- w.taken :: s.epoch <= w.epoch) && w.group.generation == GenerationOf(w.epoch)
    ensures Inv(World(Reopened(w.group, deadline), w.epoch + 1, w.taken))
  {
    NextGenerationOf(w.epoch);
    forall id <- w.group.members ensures Latest(w.taken, w.epoch + 1, id) == None {
      NothingYet(w.taken, w.epoch + 1, id);
    }
  }

  lemma {:induction false} JoinKeeps(w: World, e: Event)
    requires Inv(w) && e.Join?
    ensures Inv(Next(w, e))
  {
    hide Expire, Joined, JoinedId, Reopened;
    ExpireKeeps(w, e.now);
    var g := Expire(w.group, e.now);
    var id := JoinedId(e.name, g, e.req);
    var h := g.(memberSeq := if e.req.memberId == "" then g.memberSeq + 1 else g.memberSeq,
                members := g.members[id := Joined(e.req, e.now)],
                protocolType := if e.req.protocolType != "" then e.req.protocolType else g.protocolType);
    if Opens(w.group, e) {
      ReopenKeeps(w.(group := h), e.now + e.delay);
    } else {
      JoinWindow(w.(group := g), h, id, e);
    }
  }

  /** A member joining an open window changes nobody's assignment and has none. */
  lemma {:induction false} JoinWindow(w: World, h: Group, id: string, e: Event)
    requires Inv(w) && w.group.phase.PreparingRebalance? && e.Join?
    requires h.members == w.group.members[id := Joined(e.req, e.now)] && h.phase == w.group.phase
    requires h.generation == w.group.generation
    ensures Inv(w.(group := h))
  {
    forall other <- h.members ensures h.members[other].assignment == Latest(w.taken, w.epoch, other) {
      NothingYet(w.taken, w.epoch, other);
    }
  }

  lemma {:induction false} SyncKeeps(w: World, e: Event)
    requires Inv(w) && e.Sync?
    ensures Inv(Next(w, e))
  {
    var v := Next(w, e);
    if Takes(w.group, e) {
      assert v.taken[..|w.taken|] == w.taken;
      AssignedGives(w.group.members, e.assignments, e.id);
      forall id <- v.group.members ensures v.group.members[id].assignment == Latest(v.taken, v.epoch, id) {
        AssignedGives(w.group.members, e.assignments, id);
      }
    }
  }

  lemma {:induction false} DepartKeeps(w: World, e: Event)
    requires Inv(w) && e.Depart?
    ensures Inv(Next(w, e))
  {
    hide First, Reopened;
    var g := w.group;
    var rest := g.members - {e.id};
    if Opens(g, e) {
      var h := g.(members := rest, leader := if g.leader == Some(e.id) then First(rest.Keys) else g.leader);
      ReopenKeeps(w.(group := h), e.now + e.delay);
    }
  }

  lemma {:induction false} BeatKeeps(w: World, e: Event)
    requires Inv(w) && e.Heartbeat?
    ensures Inv(Next(w, e))
  {
    hide Expire;
    ExpireKeeps(w, e.now);
  }

  lemma {:induction false} CloseKeeps(w: World, e: Event)
    requires Inv(w) && e.Close?
    ensures Inv(Next(w, e))
  {
    hide First, SelectProtocol;
  }

  lemma {:induction false} NextKeepsInv(w: World, e: Event)
    requires Inv(w)
    ensures Inv(Next(w, e))
  {
    hide Inv, Next;
    match e
    case Join(name, req, now, delay) => JoinKeeps(w, e);
    case Close(now) => CloseKeeps(w, e);
    case Sync(id, generation, assignments) => SyncKeeps(w, e);
    case Heartbeat(id, now) => BeatKeeps(w, e);
    case Depart(id, now, delay) => DepartKeeps(w, e);
  }

  lemma {:induction false} AfterInv(events: seq<Event>)
    ensures Inv(After(events))
    decreases |events|
  {
    hide Next;
    if events != [] {
      hide Inv;
      AfterInv(events[..|events| - 1]);
      NextKeepsInv(After(events[..|events| - 1]), events[|events| - 1]);
    }
  }

  // ----- What SyncGroup answers -----

  /** Event j is a SyncGroup the group took, sent by its leader of the time, in the epoch `after` is in. */
  ghost predicate LeaderSent(events: seq<Event>, j: nat, epoch: nat, generation: int) {
    && j < |events| && events[j].Sync?
    && var w := After(events[..j]);
       && w.group.leader == Some(events[j].id) && w.epoch == epoch
       && w.group.generation == generation == events[j].generation
  }

  ghost predicate Named(events: seq<Event>, j: nat, id: string) {
    j < |events| && events[j].Sync? && Takes(After(events[..j]).group, events[j]) && GivenTo(events[j].assignments, id).Some?
  }

  lemma {:induction false} LatestSent(events: seq<Event>, epoch: nat, id: string) returns (j: nat)
    requires Latest(After(events).taken, epoch, id).Some?
    ensures LeaderSent(events, j, epoch, GenerationOf(epoch))
    ensures GivenTo(events[j].assignments, id) == Latest(After(events).taken, epoch, id)
    ensures forall i | j < i < |events| :: Named(events, i, id) ==> After(events[..i]).epoch != epoch
    decreases |events|
  {
    hide GroupAfter, Opens, AssignmentsFromLeader, GenerationOf, GivenTo;
    var before, e := events[..|events| - 1], events[|events| - 1];
    var w, v := After(before), After(events);
    AfterInv(before);
    if Takes(w.group, e) && w.epoch == epoch && GivenTo(e.assignments, id).Some? {
      j := |events| - 1;
    } else {
      assert Takes(w.group, e) ==> v.taken[..|w.taken|] == w.taken;
      j := LatestSent(before, epoch, id);
      Shorter(events, j, epoch, GenerationOf(epoch));
      forall i | j < i < |events| && Named(events, i, id) ensures After(events[..i]).epoch != epoch {
        if i < |before| {
          assert before[..i] == events[..i];
          assert Named(before, i, id);
        }
      }
    }
  }

  lemma {:induction false} Shorter(events: seq<Event>, j: nat, epoch: nat, generation: int)
    requires |events| > 0 && LeaderSent(events[..|events| - 1], j, epoch, generation)
    ensures LeaderSent(events, j, epoch, generation)
  {
    assert events[..|events| - 1][..j] == events[..j];
  }

  lemma {:induction false} NeverNamed(events: seq<Event>, epoch: nat, id: string)
    requires Latest(After(events).taken, epoch, id).None?
    ensures forall i | 0 <= i < |events| :: Named(events, i, id) ==> After(events[..i]).epoch != epoch
    decreases |events|
  {
    hide GroupAfter, Opens, GivenTo;
    if events != [] {
      var before, e := events[..|events| - 1], events[|events| - 1];
      var w, v := After(before), After(events);
      assert Takes(w.group, e) ==> v.taken[..|w.taken|] == w.taken;
      NeverNamed(before, epoch, id);
      forall i | 0 <= i < |events| && Named(events, i, id) ensures After(events[..i]).epoch != epoch {
        if i < |before| {
          assert before[..i] == events[..i];
          assert Named(before, i, id);
        }
      }
    }
  }

  /**
   Whatever calls have been made, a SyncGroup answered NONE at generation n returns what the group's leader of the time
   sent for this member in the current epoch, whose generation is n: the last such assignment, or nothing when the
   leader named the member in none.
   */
  lemma {:induction false} SyncAnswersLeader(events: seq<Event>, id: string, generation: int, bytes': bytes)
    returns (j: nat)
    requires Poll(After(events).group, id, generation) == Some(SyncOutcome(NONE, bytes'))
    ensures var w := After(events);
            && w.group.generation == generation == GenerationOf(w.epoch)
            && if Latest(w.taken, w.epoch, id).Some? then
                 && LeaderSent(events, j, w.epoch, generation)
                 && GivenTo(events[j].assignments, id) == Some(bytes')
                 && (forall i | j < i < |events| :: Named(events, i, id) ==> After(events[..i]).epoch != w.epoch)
               else
                 && bytes' == []
                 && (forall i | 0 <= i < |events| :: Named(events, i, id) ==> After(events[..i]).epoch != w.epoch)
  {
    hide LeaderSent, Named, After, GenerationOf;
    AfterInv(events);
    var w := After(events);
    if Latest(w.taken, w.epoch, id).Some? {
      j := LatestSent(events, w.epoch, id);
    } else {
      NeverNamed(events, w.epoch, id);
      j := 0;
    }
  }

  /** Before the generation wraps, an epoch is its generation, so "in the current epoch" is "in this generation". */
  lemma {:induction false} GenerationIsEpoch(events: seq<Event>)
    requires After(events).epoch <= I32_MAX
    ensures After(events).group.generation == After(events).epoch
  {
    hide After, AssignmentsFromLeader;
    AfterInv(events);
  }

  /** What a member that is not the leader submits leaves the group as it is. */
  lemma {:induction false} FollowerChangesNothing(w: World, id: string, generation: int,
                                                  assignments: seq<(string, bytes)>)
    requires w.group.leader != Some(id)
    ensures Next(w, Sync(id, generation, assignments)) == w
  {
  }
}
