/** Squads and their members, with the events and teams they hang from. */
module Squads {
  import opened Common

  datatype EventStatus = DRAFT | ACTIVE | ENDED

  datatype SquadStatus = SquadActive | SquadInactive | DISBANDED

  datatype Squad = Squad(teamId: Id, name: string, leaderId: Option<Id>, status: SquadStatus)

  /** `issued` are the generated ids so far: they never repeat. */
  datatype Roster = Roster(
    events: map<Id, EventStatus>,
    teams: map<Id, Id>, // teamId to eventId
    squads: map<Id, Squad>,
    members: set<(Id, Id)>, // (squadId, operatorId)
    operators: set<Id>,
    issued: set<Id>)

  datatype Patch = Patch(name: Option<string>, leaderId: Option<Option<Id>>, status: Option<SquadStatus>)

  datatype Op =
    | CreateEvent(id: Id)
    | ActivateEvent(id: Id)
    | EndEvent(id: Id)
    | RemoveEvent(id: Id)
    | CreateTeam(id: Id, eventId: Id)
    | RemoveTeam(id: Id)
    | CreateSquad(id: Id, teamId: Id, name: string)
    | UpdateSquad(id: Id, patch: Patch)
    | RemoveSquad(id: Id)
    | AddMember(squadId: Id, operatorId: Id)
    | RemoveMember(squadId: Id, operatorId: Id)

  datatype Error =
    | IdTaken | EventNotFound | TeamNotFound | SquadNotFound | OperatorNotFound | NotAMember
    | WrongEventStatus | SquadDisbanded | NameTaken | LeaderNotAMember | AlreadyInEvent

  // ---------- Foreign keys as lookups ----------

  /** The event of a squad's team. */
  function EventOf(s: Roster, squadId: Id): Option<Id> {
    if squadId in s.squads && s.squads[squadId].teamId in s.teams then Some(s.teams[s.squads[squadId].teamId]) else None
  }

  predicate HasStatus(s: Roster, event: Option<Id>, status: EventStatus) {
    event.Some? && event.value in s.events && s.events[event.value] == status
  }

  predicate NameIsTaken(s: Roster, teamId: Id, name: string, except: Option<Id>) {
    exists id :: id in s.squads && s.squads[id].teamId == teamId && s.squads[id].name == name && Some(id) != except
  }

  predicate MemberInEvent(s: Roster, event: Id, op: Id) {
    exists m :: m in s.members && m.1 == op && EventOf(s, m.0) == Some(event)
  }

  /** Deleting squads deletes their memberships. */
  function WithoutSquads(s: Roster, gone: set<Id>): Roster {
    s.(squads := map id | id in s.squads && id !in gone :: s.squads[id],
       members := set m | m in s.members && m.0 !in gone)
  }

  /** Deleting teams deletes their squads. */
  function WithoutTeams(s: Roster, gone: set<Id>): Roster {
    WithoutSquads(s, set id | id in s.squads && s.squads[id].teamId in gone)
      .(teams := map id | id in s.teams && id !in gone :: s.teams[id])
  }

  // ---------- Events and teams: the callers ----------

  function EventStep(s: Roster, op: Op): Result<Roster, Error>
    requires op.CreateEvent? || op.ActivateEvent? || op.EndEvent? || op.RemoveEvent?
  {
    if op.CreateEvent? then
      if op.id in s.issued then Err(IdTaken)
          else Ok(s.(events := s.events[op.id := DRAFT], issued := s.issued + {op.id}))
    else if op.id !in s.events then Err(EventNotFound)
    else if s.events[op.id] != (if op.EndEvent? then ACTIVE else DRAFT) then Err(WrongEventStatus)
    else if op.RemoveEvent? then
      Ok(WithoutTeams(s, set t | t in s.teams && s.teams[t] == op.id).(events := map e | e in s.events && e != op.id ::
          s.events[e]))
    else Ok(s.(events := s.events[op.id := if op.EndEvent? then ENDED else ACTIVE]))
  }

  function TeamStep(s: Roster, op: Op): Result<Roster, Error>
    requires op.CreateTeam? || op.RemoveTeam?
  {
    if op.CreateTeam? then
      if op.eventId !in s.events then Err(EventNotFound)
      else if s.events[op.eventId] == ENDED then Err(WrongEventStatus)
      else if op.id in s.issued then Err(IdTaken)
      else Ok(s.(teams := s.teams[op.id := op.eventId], issued := s.issued + {op.id}))
    else if op.id !in s.teams then Err(TeamNotFound)
    else if !HasStatus(s, Some(s.teams[op.id]), DRAFT) then Err(WrongEventStatus)
    else Ok(WithoutTeams(s, {op.id}))
  }

  // ---------- Squads ----------

  function CreateSpec(s: Roster, id: Id, teamId: Id, name: string): Result<Roster, Error> {
    if teamId !in s.teams then Err(TeamNotFound)
    else if HasStatus(s, Some(s.teams[teamId]), ENDED) then Err(WrongEventStatus)
    else if NameIsTaken(s, teamId, name, None) then Err(NameTaken)
    else if id in s.issued then Err(IdTaken)
    else Ok(s.(squads := s.squads[id := Squad(teamId, name, None, SquadActive)], issued := s.issued + {id}))
  }

  function UpdateSpec(s: Roster, id: Id, p: Patch): Result<Roster, Error> {
    if id !in s.squads then Err(SquadNotFound)
    else
      var squad := s.squads[id];
      if HasStatus(s, EventOf(s, id), ENDED) then Err(WrongEventStatus)
      else if p.status.Some? && squad.status != p.status.value && squad.status == DISBANDED then Err(SquadDisbanded)
      else if p.name.Some? && p.name.value != squad.name && NameIsTaken(s, squad.teamId, p.name.value, Some(id)) then
          Err(NameTaken)
      else if p.leaderId.Some? && p.leaderId.value.Some? && (id, p.leaderId.value.value) !in s.members then
          Err(LeaderNotAMember)
      else
        Ok(s.(squads := s.squads[id := Squad(squad.teamId, OrElse(p.name, squad.name),
                                             OrElse(p.leaderId, squad.leaderId), OrElse(p.status, squad.status))]))
  }

  function RemoveSpec(s: Roster, id: Id): Result<Roster, Error> {
    if id !in s.squads then Err(SquadNotFound)
    else if !HasStatus(s, EventOf(s, id), DRAFT) then Err(WrongEventStatus)
    else Ok(WithoutSquads(s, {id}))
  }

  function AddMemberSpec(s: Roster, id: Id, op: Id): Result<Roster, Error> {
    if id !in s.squads then Err(SquadNotFound)
    else if s.squads[id].status == DISBANDED then Err(SquadDisbanded)
    else if EventOf(s, id).None? then Err(TeamNotFound)
    else if HasStatus(s, EventOf(s, id), ENDED) then Err(WrongEventStatus)
    else if op !in s.operators then Err(OperatorNotFound)
    else if MemberInEvent(s, EventOf(s, id).value, op) then Err(AlreadyInEvent)
    else Ok(s.(members := s.members + {(id, op)}))
  }

  function RemoveMemberSpec(s: Roster, id: Id, op: Id): Result<Roster, Error> {
    if id !in s.squads then Err(SquadNotFound)
    else if HasStatus(s, EventOf(s, id), ENDED) then Err(WrongEventStatus)
    else if (id, op) !in s.members then Err(NotAMember)
    else
      var squad := s.squads[id];
      Ok(s.(members := s.members - {(id, op)},
            squads := if squad.leaderId == Some(op) then s.squads[id := squad.(leaderId := None)] else s.squads))
  }

  function Step(s: Roster, op: Op): Result<Roster, Error> {
    match op
    case CreateEvent(_) => EventStep(s, op)
    case ActivateEvent(_) => EventStep(s, op)
    case EndEvent(_) => EventStep(s, op)
    case RemoveEvent(_) => EventStep(s, op)
    case CreateTeam(_, _) => TeamStep(s, op)
    case RemoveTeam(_) => TeamStep(s, op)
    case CreateSquad(id, teamId, name) => CreateSpec(s, id, teamId, name)
    case UpdateSquad(id, patch) => UpdateSpec(s, id, patch)
    case RemoveSquad(id) => RemoveSpec(s, id)
    case AddMember(squadId, operatorId) => AddMemberSpec(s, squadId, operatorId)
    case RemoveMember(squadId, operatorId) => RemoveMemberSpec(s, squadId, operatorId)
  }

  /** A call that throws changes nothing. */
  function After(s: Roster, op: Op): Roster {
    if Step(s, op).Ok? then Step(s, op).value else s
  }

  function Run(s: Roster, ops: seq<Op>): Roster {
    if ops == [] then s else After(Run(s, ops[..|ops| - 1]), ops[|ops| - 1])
  }

  // ---------- The invariant ----------

  predicate KeysResolve(s: Roster) {
    && (forall t :: t in s.teams ==> s.teams[t] in s.events)
    && (forall id :: id in s.squads ==> s.squads[id].teamId in s.teams)
    && (forall m :: m in s.members ==> m.0 in s.squads)
    && s.events.Keys + s.teams.Keys + s.squads.Keys <= s.issued
  }

  /** At most one squad per operator and event. */
  predicate OneSquadPerEvent(s: Roster) {
    forall m, n :: m in s.members && n in s.members && m.1 == n.1 && EventOf(s, m.0) == EventOf(s, n.0) ==> m == n
  }

  /** A leader is a member. */
  predicate LeadersAreMembers(s: Roster) {
    forall id :: id in s.squads && s.squads[id].leaderId.Some? ==> (id, s.squads[id].leaderId.value) in s.members
  }

  predicate SameName(a: Squad, b: Squad) {
    a.teamId == b.teamId && a.name == b.name
  }

  predicate NamesAreUnique(s: Roster) {
    forall i, j :: i in s.squads && j in s.squads && SameName(s.squads[i], s.squads[j]) ==> i == j
  }

  predicate Valid(s: Roster) {
    KeysResolve(s) && OneSquadPerEvent(s) && LeadersAreMembers(s) && NamesAreUnique(s)
  }

  lemma OnePerEventKept(s: Roster, t: Roster)
    requires OneSquadPerEvent(s) && t.members <= s.members
    requires forall m :: m in t.members ==> EventOf(t, m.0) == EventOf(s, m.0)
    ensures OneSquadPerEvent(t)
  {
  }

  lemma NamesKept(s: Roster, t: Roster)
    requires NamesAreUnique(s)
    requires forall i :: i in t.squads ==>
      i in s.squads && t.squads[i].teamId == s.squads[i].teamId && t.squads[i].name == s.squads[i].name
    ensures NamesAreUnique(t)
  {
    forall i, j | i in t.squads && j in t.squads && SameName(t.squads[i], t.squads[j]) ensures i == j {
      assert SameName(s.squads[i], s.squads[j]);
    }
  }

  lemma DeletionKeepsValid(s: Roster, gone: set<Id>)
    requires Valid(s)
    ensures Valid(WithoutSquads(s, gone))
  {
    var t := WithoutSquads(s, gone);
    assert forall m :: m in t.members ==> m in s.members && m.0 in t.squads && EventOf(t, m.0) == EventOf(s, m.0);
    OnePerEventKept(s, t);
    NamesKept(s, t);
  }

  lemma CascadeKeepsValid(s: Roster, gone: set<Id>)
    requires Valid(s)
    ensures Valid(WithoutTeams(s, gone))
  {
    var left := WithoutSquads(s, set id | id in s.squads && s.squads[id].teamId in gone);
    var t := WithoutTeams(s, gone);
    DeletionKeepsValid(s, set id | id in s.squads && s.squads[id].teamId in gone);
    assert t.squads == left.squads && t.members == left.members;
    assert forall m :: m in t.members ==> m.0 in t.squads && EventOf(t, m.0) == EventOf(left, m.0);
    OnePerEventKept(left, t);
    NamesKept(left, t);
  }

  lemma RemoveEventKeepsValid(s: Roster, e: Id)
    requires Valid(s)
    ensures var r := EventStep(s, RemoveEvent(e)); r.Ok? ==> Valid(r.value)
  {
    var gone := set t | t in s.teams && s.teams[t] == e;
    CascadeKeepsValid(s, gone);
    var t := WithoutTeams(s, gone);
    var r := EventStep(s, RemoveEvent(e));
    if r.Ok? {
      assert forall id :: EventOf(r.value, id) == EventOf(t, id);
    }
  }

  lemma CreationKeepsValid(s: Roster, op: Op)
    requires Valid(s) && (op.CreateEvent? || op.ActivateEvent? || op.EndEvent? || op.CreateTeam?)
    ensures Valid(After(s, op))
  {
    var t := After(s, op);
    assert forall id :: id in s.squads ==> EventOf(t, id) == EventOf(s, id);
  }

  /** One more squad, with a new id, a free name and no leader. */
  lemma SquadAdded(s: Roster, t: Roster, id: Id, squad: Squad)
    requires Valid(s) && id !in s.issued && squad.teamId in s.teams && squad.leaderId.None?
    requires !NameIsTaken(s, squad.teamId, squad.name, None)
    requires t == s.(squads := s.squads[id := squad], issued := s.issued + {id})
    ensures Valid(t)
  {
    assert id !in s.squads;
    assert forall i :: i in s.squads ==> EventOf(t, i) == EventOf(s, i);
    assert OneSquadPerEvent(t);
    forall i | i in s.squads ensures !(s.squads[i].teamId == squad.teamId && s.squads[i].name == squad.name) {
      assert Some(i) != None;
    }
    assert NamesAreUnique(t);
  }

  lemma NewSquadKeepsValid(s: Roster, id: Id, teamId: Id, name: string)
    requires Valid(s)
    ensures Valid(After(s, CreateSquad(id, teamId, name)))
  {
    if CreateSpec(s, id, teamId, name).Ok? {
      SquadAdded(s, CreateSpec(s, id, teamId, name).value, id, Squad(teamId, name, None, SquadActive));
    }
  }

  /** One squad edited within its team: its name is free, its leader a member. */
  lemma SquadEdited(s: Roster, t: Roster, id: Id, squad: Squad)
    requires Valid(s) && id in s.squads && squad.teamId == s.squads[id].teamId
    requires squad.leaderId.Some? ==> (id, squad.leaderId.value) in s.members
    requires squad.name == s.squads[id].name || !NameIsTaken(s, squad.teamId, squad.name, Some(id))
    requires t == s.(squads := s.squads[id := squad])
    ensures Valid(t)
  {
    assert forall i :: EventOf(t, i) == EventOf(s, i);
    OnePerEventKept(s, t);
    if squad.name == s.squads[id].name {
      NamesKept(s, t);
    } else {
      forall i | i in s.squads && i != id ensures !SameName(s.squads[i], squad) {
        assert Some(i) != Some(id);
      }
      assert NamesAreUnique(t);
    }
  }

  lemma UpdateKeepsValid(s: Roster, id: Id, p: Patch)
    requires Valid(s)
    ensures Valid(After(s, UpdateSquad(id, p)))
  {
    if UpdateSpec(s, id, p).Ok? {
      var t := UpdateSpec(s, id, p).value;
      SquadEdited(s, t, id, t.squads[id]);
    }
  }

  lemma RemovalKeepsValid(s: Roster, id: Id)
    requires Valid(s)
    ensures Valid(After(s, RemoveSquad(id)))
  {
    DeletionKeepsValid(s, {id});
    var t := WithoutSquads(s, {id});
    assert After(s, RemoveSquad(id)) == if RemoveSpec(s, id).Ok? then t else s;
  }

  /** One more membership of an operator who has none in the event. */
  lemma MemberAdded(s: Roster, t: Roster, id: Id, op: Id)
    requires Valid(s) && id in s.squads && EventOf(s, id).Some? && !MemberInEvent(s, EventOf(s, id).value, op)
    requires t == s.(members := s.members + {(id, op)})
    ensures Valid(t)
  {
    assert forall i :: EventOf(t, i) == EventOf(s, i);
    NamesKept(s, t);
    forall m, n | m in t.members && n in t.members && m.1 == n.1 && EventOf(t, m.0) == EventOf(t, n.0) ensures m == n {
      if m.1 == op && (m !in s.members || n !in s.members) {
        assert m in s.members ==> EventOf(s, m.0) != EventOf(s, id);
        assert n in s.members ==> EventOf(s, n.0) != EventOf(s, id);
      }
    }
  }

  lemma JoiningKeepsValid(s: Roster, id: Id, op: Id)
    requires Valid(s)
    ensures Valid(After(s, AddMember(id, op)))
  {
    if AddMemberSpec(s, id, op).Ok? {
      MemberAdded(s, AddMemberSpec(s, id, op).value, id, op);
    }
  }

  /** One membership less, and the leader it leaves behind cleared. */
  lemma MemberGone(s: Roster, t: Roster, id: Id, op: Id)
    requires Valid(s) && id in s.squads && t.members == s.members - {(id, op)}
    requires t.events == s.events && t.teams == s.teams && t.issued == s.issued && t.squads.Keys == s.squads.Keys
    requires forall i :: i in s.squads && i != id ==> t.squads[i] == s.squads[i]
    requires var was := s.squads[id]; t.squads[id] == if was.leaderId == Some(op) then was.(leaderId := None) else was
    ensures Valid(t)
  {
    assert forall i :: i in s.squads ==>
      t.squads[i].teamId == s.squads[i].teamId && t.squads[i].name == s.squads[i].name;
    assert forall i :: EventOf(t, i) == EventOf(s, i);
    assert OneSquadPerEvent(t);
    assert NamesAreUnique(t);
    assert LeadersAreMembers(t);
  }

  lemma LeavingKeepsValid(s: Roster, id: Id, op: Id)
    requires Valid(s)
    ensures Valid(After(s, RemoveMember(id, op)))
  {
    if RemoveMemberSpec(s, id, op).Ok? {
      MemberGone(s, RemoveMemberSpec(s, id, op).value, id, op);
    }
  }

  lemma {:induction false} StepKeepsValid(s: Roster, op: Op)
    requires Valid(s)
    ensures Valid(After(s, op))
  {
    match op
    case RemoveEvent(e) => RemoveEventKeepsValid(s, e);
    case RemoveTeam(id) => CascadeKeepsValid(s, {id});
    case CreateEvent(_) => CreationKeepsValid(s, op);
    case ActivateEvent(_) => CreationKeepsValid(s, op);
    case EndEvent(_) => CreationKeepsValid(s, op);
    case CreateTeam(_, _) => CreationKeepsValid(s, op);
    case CreateSquad(id, teamId, name) => NewSquadKeepsValid(s, id, teamId, name);
    case UpdateSquad(id, p) => UpdateKeepsValid(s, id, p);
    case RemoveSquad(id) => RemovalKeepsValid(s, id);
    case AddMember(id, o) => JoiningKeepsValid(s, id, o);
    case RemoveMember(id, o) => LeavingKeepsValid(s, id, o);
  }

  /** In every reachable state: one squad per event, leaders are members, names are unique. */
  lemma {:induction false} EveryRunIsValid(s: Roster, ops: seq<Op>)
    requires Valid(s)
    ensures Valid(Run(s, ops))
    decreases |ops|
  {
    if ops != [] {
      EveryRunIsValid(s, ops[..|ops| - 1]);
      StepKeepsValid(Run(s, ops[..|ops| - 1]), ops[|ops| - 1]);
    }
  }

  // ---------- Repeating a PATCH ----------

  /** A PATCH that was accepted is accepted again and then changes nothing. */
  lemma UpdateIsIdempotent(s: Roster, id: Id, p: Patch)
    requires UpdateSpec(s, id, p).Ok?
    ensures var once := UpdateSpec(s, id, p).value; UpdateSpec(once, id, p) == Ok(once)
  {
    var once := UpdateSpec(s, id, p).value;
    assert EventOf(once, id) == EventOf(s, id);
    assert once.squads[id := once.squads[id]] == once.squads;
  }

  // ---------- DISBANDED is terminal ----------

  predicate DisbandedOrGone(s: Roster, id: Id) {
    id in s.issued && (id in s.squads ==> s.squads[id].status == DISBANDED)
  }

  lemma DisbandedStays(s: Roster, op: Op, id: Id)
    requires DisbandedOrGone(s, id)
    ensures DisbandedOrGone(After(s, op), id)
    ensures forall o :: (id, o) in After(s, op).members ==> (id, o) in s.members
  {
  }

  /** Once disbanded, a squad is disbanded or deleted ever after, and never gains a member. */
  lemma {:induction false} DisbandedIsTerminal(s: Roster, ops: seq<Op>, id: Id)
    requires DisbandedOrGone(s, id)
    ensures DisbandedOrGone(Run(s, ops), id)
    ensures forall o :: (id, o) in Run(s, ops).members ==> (id, o) in s.members
    decreases |ops|
  {
    if ops != [] {
      DisbandedIsTerminal(s, ops[..|ops| - 1], id);
      DisbandedStays(Run(s, ops[..|ops| - 1]), ops[|ops| - 1], id);
    }
  }

  // ---------- An ENDED event is frozen ----------

  /** One event has the same teams, squads and memberships. */
  predicate SameInEvent(s: Roster, t: Roster, e: Id) {
    && (forall id :: id in s.squads && EventOf(s, id) == Some(e) ==> id in t.squads && t.squads[id] == s.squads[id])
    && (forall id :: id in t.squads && EventOf(t, id) == Some(e) ==> id in s.squads && EventOf(s, id) == Some(e))
    && (forall m :: m in s.members && EventOf(s, m.0) == Some(e) ==> m in t.members)
    && (forall m :: m in t.members && EventOf(t, m.0) == Some(e) ==> m in s.members)
    && (forall id :: id in s.teams && s.teams[id] == e ==> id in t.teams && t.teams[id] == e)
    && (forall id :: id in t.teams && t.teams[id] == e ==> id in s.teams && s.teams[id] == e)
  }

  lemma CascadeLeavesOthers(s: Roster, gone: set<Id>, e: Id)
    requires Valid(s) && forall t :: t in gone && t in s.teams ==> s.teams[t] != e
    ensures SameInEvent(s, WithoutTeams(s, gone), e)
  {
    var t := WithoutTeams(s, gone);
    assert forall id :: id in t.squads ==> EventOf(t, id) == EventOf(s, id);
  }

  /** New events and teams elsewhere, and events that start or end elsewhere. */
  lemma SquadsUntouched(s: Roster, t: Roster, e: Id)
    requires t.squads == s.squads && t.members == s.members
    requires forall id :: id in s.teams ==> id in t.teams && t.teams[id] == s.teams[id]
    requires forall id :: id in t.teams && id !in s.teams ==> t.teams[id] != e
    requires forall id :: id in s.squads ==> s.squads[id].teamId in s.teams
    ensures SameInEvent(s, t, e)
  {
    assert forall id :: id in s.squads ==> EventOf(t, id) == EventOf(s, id);
  }

  lemma TeamStepLeavesEnded(s: Roster, op: Op, e: Id)
    requires Valid(s) && HasStatus(s, Some(e), ENDED) && (op.CreateTeam? || op.RemoveTeam?)
    ensures HasStatus(After(s, op), Some(e), ENDED) && SameInEvent(s, After(s, op), e)
  {
    if TeamStep(s, op).Ok? && op.RemoveTeam? {
      CascadeLeavesOthers(s, {op.id}, e);
    } else {
      SquadsUntouched(s, After(s, op), e);
    }
  }

  lemma EventsAside(s: Roster, t: Roster, u: Roster, e: Id)
    requires SameInEvent(s, t, e) && u.teams == t.teams && u.squads == t.squads && u.members == t.members
    ensures SameInEvent(s, u, e)
  {
    assert forall id :: EventOf(u, id) == EventOf(t, id);
  }

  lemma RemoveEventLeavesEnded(s: Roster, gone: Id, e: Id)
    requires Valid(s) && HasStatus(s, Some(e), ENDED)
    ensures HasStatus(After(s, RemoveEvent(gone)), Some(e), ENDED) && SameInEvent(s, After(s, RemoveEvent(gone)), e)
  {
    if EventStep(s, RemoveEvent(gone)).Ok? {
      var teams := set t | t in s.teams && s.teams[t] == gone;
      CascadeLeavesOthers(s, teams, e);
      EventsAside(s, WithoutTeams(s, teams), EventStep(s, RemoveEvent(gone)).value, e);
    } else {
      SquadsUntouched(s, s, e);
    }
  }

  lemma EventStepLeavesEnded(s: Roster, op: Op, e: Id)
    requires Valid(s) && HasStatus(s, Some(e), ENDED) && (op.CreateEvent? || op.ActivateEvent? || op.EndEvent?)
    ensures HasStatus(After(s, op), Some(e), ENDED) && SameInEvent(s, After(s, op), e)
  {
    SquadsUntouched(s, After(s, op), e);
  }

  /** A step that writes one squad of another event, or memberships of it, leaves this one alone. */
  lemma OneSquadElsewhere(s: Roster, t: Roster, id: Id, squad: Squad, e: Id)
    requires t.teams == s.teams && t.events == s.events && t.squads == s.squads[id := squad]
    requires squad.teamId in s.teams && s.teams[squad.teamId] != e && EventOf(s, id) != Some(e)
    requires forall m: (Id, Id) :: m.0 != id ==> (m in s.members <==> m in t.members)
    ensures SameInEvent(s, t, e)
  {
    assert EventOf(t, id) != Some(e);
    assert forall i :: i != id ==> EventOf(t, i) == EventOf(s, i);
  }

  lemma CreateLeavesEnded(s: Roster, id: Id, teamId: Id, name: string, e: Id)
    requires Valid(s) && HasStatus(s, Some(e), ENDED)
    ensures HasStatus(After(s, CreateSquad(id, teamId, name)), Some(e), ENDED) &&
        SameInEvent(s, After(s, CreateSquad(id, teamId, name)), e)
  {
    var r := CreateSpec(s, id, teamId, name);
    if r.Ok? {
      assert id !in s.squads && s.teams[teamId] != e;
      OneSquadElsewhere(s, r.value, id, Squad(teamId, name, None, SquadActive), e);
    } else {
      SquadsUntouched(s, s, e);
    }
  }

  lemma UpdateLeavesEnded(s: Roster, id: Id, p: Patch, e: Id)
    requires Valid(s) && HasStatus(s, Some(e), ENDED)
    ensures HasStatus(After(s, UpdateSquad(id, p)), Some(e), ENDED) && SameInEvent(s, After(s, UpdateSquad(id, p)), e)
  {
    var r := UpdateSpec(s, id, p);
    if r.Ok? {
      assert EventOf(s, id) != Some(e);
      OneSquadElsewhere(s, r.value, id, r.value.squads[id], e);
    } else {
      SquadsUntouched(s, s, e);
    }
  }

  lemma JoiningLeavesEnded(s: Roster, id: Id, op: Id, e: Id)
    requires Valid(s) && HasStatus(s, Some(e), ENDED)
    ensures HasStatus(After(s, AddMember(id, op)), Some(e), ENDED) && SameInEvent(s, After(s, AddMember(id, op)), e)
  {
    var r := AddMemberSpec(s, id, op);
    if r.Ok? {
      assert EventOf(s, id) != Some(e);
      assert s.squads == s.squads[id := s.squads[id]];
      OneSquadElsewhere(s, r.value, id, s.squads[id], e);
    } else {
      SquadsUntouched(s, s, e);
    }
  }

  lemma LeavingLeavesEnded(s: Roster, id: Id, op: Id, e: Id)
    requires Valid(s) && HasStatus(s, Some(e), ENDED)
    ensures HasStatus(After(s, RemoveMember(id, op)), Some(e), ENDED) &&
        SameInEvent(s, After(s, RemoveMember(id, op)), e)
  {
    var r := RemoveMemberSpec(s, id, op);
    if r.Ok? {
      assert EventOf(s, id) != Some(e);
      assert s.squads == s.squads[id := s.squads[id]];
      OneSquadElsewhere(s, r.value, id, r.value.squads[id], e);
    } else {
      SquadsUntouched(s, s, e);
    }
  }

  lemma DeletionLeavesEnded(s: Roster, id: Id, e: Id)
    requires Valid(s) && HasStatus(s, Some(e), ENDED)
    ensures HasStatus(After(s, RemoveSquad(id)), Some(e), ENDED) && SameInEvent(s, After(s, RemoveSquad(id)), e)
  {
    var t := After(s, RemoveSquad(id));
    assert forall i :: i in t.squads ==> EventOf(t, i) == EventOf(s, i);
  }

  lemma EndedStaysFrozen(s: Roster, op: Op, e: Id)
    requires Valid(s) && HasStatus(s, Some(e), ENDED)
    ensures HasStatus(After(s, op), Some(e), ENDED) && SameInEvent(s, After(s, op), e)
  {
    match op
    case RemoveSquad(id) => DeletionLeavesEnded(s, id, e);
    case CreateSquad(id, teamId, name) => CreateLeavesEnded(s, id, teamId, name, e);
    case UpdateSquad(id, p) => UpdateLeavesEnded(s, id, p, e);
    case AddMember(id, o) => JoiningLeavesEnded(s, id, o, e);
    case RemoveMember(id, o) => LeavingLeavesEnded(s, id, o, e);
    case RemoveEvent(gone) => RemoveEventLeavesEnded(s, gone, e);
    case CreateTeam(_, _) => TeamStepLeavesEnded(s, op, e);
    case RemoveTeam(_) => TeamStepLeavesEnded(s, op, e);
    case _ => EventStepLeavesEnded(s, op, e);
  }

  lemma FrozenIsTransitive(s: Roster, t: Roster, u: Roster, e: Id)
    requires SameInEvent(s, t, e) && SameInEvent(t, u, e)
    ensures SameInEvent(s, u, e)
  {
    forall id | id in s.squads && EventOf(s, id) == Some(e) ensures id in t.squads && EventOf(t, id) == Some(e) {
      assert t.squads[id] == s.squads[id];
    }
  }

  /** From the moment an event is ENDED, no run of calls changes its teams, squads or memberships. */
  lemma {:induction false} EndedIsFrozen(s: Roster, ops: seq<Op>, e: Id)
    requires Valid(s) && HasStatus(s, Some(e), ENDED)
    ensures HasStatus(Run(s, ops), Some(e), ENDED) && SameInEvent(s, Run(s, ops), e)
    decreases |ops|
  {
    if ops != [] {
      var init := ops[..|ops| - 1];
      EndedIsFrozen(s, init, e);
      EveryRunIsValid(s, init);
      EndedStaysFrozen(Run(s, init), ops[|ops| - 1], e);
      FrozenIsTransitive(s, Run(s, init), Run(s, ops), e);
    } else {
      assert Run(s, ops) == s;
    }
  }

  // ---------- The service ----------

  /**
   * Each method does what its step of the state machine does, so the lemmas
   * above hold of any sequence of calls. The foreign keys are the database's.
   */
  class SquadsService {
    var events: map<Id, EventStatus>
    var teams: map<Id, Id>
    var squads: map<Id, Squad>
    var members: set<(Id, Id)>
    var operators: set<Id>
    var issued: set<Id>

    constructor (operators: set<Id>)
      ensures State() == Roster(map[], map[], map[], {}, operators, {}) && Valid(State())
    {
      this.operators := operators;
      events, teams, squads, members, issued := map[], map[], map[], {}, {};
    }

    function State(): Roster
      reads this
    {
      Roster(events, teams, squads, members, operators, issued)
    }

    method CreateForTeam(id: Id, teamId: Id, name: string) returns (r: Result<Squad, Error>)
      requires KeysResolve(State())
      modifies this`squads, this`issued
      ensures match CreateSpec(old(State()), id, teamId, name)
              case Ok(s) => r.Ok? && State() == s && r.value == squads[id]
              case Err(e) => r == Err(e) && State() == old(State())
    {
      if teamId !in teams {
        return Err(TeamNotFound);
      }
      var event := teams[teamId];
      if events[event] == ENDED {
        return Err(WrongEventStatus);
      }
      if exists i :: i in squads && squads[i].teamId == teamId && squads[i].name == name {
        assert NameIsTaken(State(), teamId, name, None);
        return Err(NameTaken);
      }
      if id in issued {
        return Err(IdTaken);
      }
      squads := squads[id := Squad(teamId, name, None, SquadActive)];
      issued := issued + {id};
      return Ok(squads[id]);
    }

    /** Only the fields present in the body are written; a null leader clears it. */
    method ApplyPatch(before: Squad, p: Patch) returns (squad: Squad)
      ensures squad == Squad(before.teamId, OrElse(p.name, before.name),
                             OrElse(p.leaderId, before.leaderId), OrElse(p.status, before.status))
    {
      squad := before;
      if p.name.Some? {
        squad := squad.(name := p.name.value);
      }
      if p.status.Some? {
        squad := squad.(status := p.status.value);
      }
      if p.leaderId.Some? {
        squad := squad.(leaderId := p.leaderId.value);
      }
    }

    method Update(id: Id, p: Patch) returns (r: Result<Squad, Error>)
      requires KeysResolve(State())
      modifies this`squads
      ensures match UpdateSpec(old(State()), id, p)
              case Ok(s) => r.Ok? && State() == s && r.value == squads[id]
              case Err(e) => r == Err(e) && State() == old(State())
    {
      if id !in squads {
        return Err(SquadNotFound);
      }
      var squad := squads[id];
      if events[teams[squad.teamId]] == ENDED {
        return Err(WrongEventStatus);
      }
      if p.status.Some? && squad.status != p.status.value && squad.status == DISBANDED {
        return Err(SquadDisbanded);
      }
      if p.name.Some? && p.name.value != squad.name && NameIsTaken(State(), squad.teamId, p.name.value, Some(id)) {
        return Err(NameTaken);
      }
      if p.leaderId.Some? && p.leaderId.value.Some? && (id, p.leaderId.value.value) !in members {
        return Err(LeaderNotAMember);
      }
      squad := ApplyPatch(squad, p);
      squads := squads[id := squad];
      return Ok(squad);
    }

    method Remove(id: Id) returns (r: Result<(), Error>)
      requires KeysResolve(State())
      modifies this`squads, this`members
      ensures match RemoveSpec(old(State()), id)
              case Ok(s) => r.Ok? && State() == s
              case Err(e) => r == Err(e) && State() == old(State())
    {
      if id !in squads {
        return Err(SquadNotFound);
      }
      if events[teams[squads[id].teamId]] != DRAFT {
        return Err(WrongEventStatus);
      }
      squads := map i | i in squads && i !in {id} :: squads[i];
      members := set m | m in members && m.0 !in {id};
      return Ok(());
    }

    method Join(squadId: Id, operatorId: Id) returns (r: Result<(), Error>)
      requires KeysResolve(State())
      modifies this`members
      ensures match AddMemberSpec(old(State()), squadId, operatorId)
              case Ok(s) => r.Ok? && State() == s
              case Err(e) => r == Err(e) && State() == old(State())
    {
      if squadId !in squads {
        return Err(SquadNotFound);
      }
      if squads[squadId].status == DISBANDED {
        return Err(SquadDisbanded);
      }
      var event := teams[squads[squadId].teamId];
      if events[event] == ENDED {
        return Err(WrongEventStatus);
      }
      if operatorId !in operators {
        return Err(OperatorNotFound);
      }
      if MemberInEvent(State(), event, operatorId) {
        return Err(AlreadyInEvent);
      }
      members := members + {(squadId, operatorId)};
      return Ok(());
    }

    /** Deletes the membership and, in the same transaction, clears the leader it leaves behind. */
    method Leave(squadId: Id, operatorId: Id) returns (r: Result<(), Error>)
      requires KeysResolve(State())
      modifies this`members, this`squads
      ensures match RemoveMemberSpec(old(State()), squadId, operatorId)
              case Ok(s) => r.Ok? && State() == s
              case Err(e) => r == Err(e) && State() == old(State())
    {
      if squadId !in squads {
        return Err(SquadNotFound);
      }
      if events[teams[squads[squadId].teamId]] == ENDED {
        return Err(WrongEventStatus);
      }
      if (squadId, operatorId) !in members {
        return Err(NotAMember);
      }
      var isLeader := squads[squadId].leaderId == Some(operatorId);
      members := members - {(squadId, operatorId)};
      if isLeader {
        squads := squads[squadId := squads[squadId].(leaderId := None)];
      }
      return Ok(());
    }
  }
}

/**
 * What each call on events, teams, squads and members does, column by column,
 * and who is in which squad after any run of them.
 */
module Memberships {
  import opened Common
  import opened Lists
  import opened Squads

  // ---------- When a call is accepted, and what it then writes ----------

  /** The event of a squad, through its team. */
  function EventIdOf(s: Roster, id: Id): Id
    requires Valid(s) && id in s.squads
  {
    s.teams[s.squads[id].teamId]
  }

  function StatusOf(s: Roster, id: Id): EventStatus
    requires Valid(s) && id in s.squads
  {
    s.events[s.teams[s.squads[id].teamId]]
  }

  lemma EventsResolve(s: Roster, id: Id)
    requires Valid(s) && id in s.squads
    ensures EventOf(s, id) == Some(EventIdOf(s, id))
    ensures forall status :: HasStatus(s, EventOf(s, id), status) <==> StatusOf(s, id) == status
  {
  }

  /** The operator is in no squad of the event. */
  predicate FreeFor(s: Roster, event: Id, op: Id)
    requires Valid(s)
  {
    forall m :: m in s.members && m.1 == op ==> EventIdOf(s, m.0) != event
  }

  lemma JoinExactly(s: Roster, id: Id, op: Id)
    requires Valid(s)
    ensures var r := Step(s, AddMember(id, op));
            && (r.Ok? <==>
                  && id in s.squads && s.squads[id].status != DISBANDED && StatusOf(s, id) != ENDED
                  && op in s.operators && FreeFor(s, EventIdOf(s, id), op))
            && (r.Ok? ==> r.value == s.(members := s.members + {(id, op)}))
  {
    if id in s.squads {
      EventsResolve(s, id);
      forall m | m in s.members ensures EventOf(s, m.0) == Some(EventIdOf(s, m.0)) {
        EventsResolve(s, m.0);
      }
    }
  }

  lemma LeaveExactly(s: Roster, id: Id, op: Id)
    requires Valid(s)
    ensures var r := Step(s, RemoveMember(id, op));
            && (r.Ok? <==> (id, op) in s.members && StatusOf(s, id) != ENDED)
            && (r.Ok? ==>
                  && r.value.members == s.members - {(id, op)} && r.value == s.(members := r.value.members,
                      squads := r.value.squads)
                  && r.value.squads == s.squads[id := Squad(s.squads[id].teamId, s.squads[id].name,
                       if s.squads[id].leaderId == Some(op) then None else s.squads[id].leaderId, s.squads[id].status)])
  {
    if id in s.squads {
      EventsResolve(s, id);
      assert s.squads == s.squads[id := s.squads[id]];
    }
  }

  /** No other squad of the team has the name. */
  predicate NameFree(s: Roster, teamId: Id, name: string, own: set<Id>) {
    forall i :: i in s.squads && i !in own ==> s.squads[i].teamId != teamId || s.squads[i].name != name
  }

  lemma CreateExactly(s: Roster, id: Id, teamId: Id, name: string)
    requires Valid(s)
    ensures var r := Step(s, CreateSquad(id, teamId, name));
            && (r.Ok? <==>
                  && teamId in s.teams && s.events[s.teams[teamId]] != ENDED && NameFree(s, teamId, name, {})
                  && id !in s.issued)
            && (r.Ok? ==> r.value == s.(squads := s.squads[id := Squad(teamId, name, None, SquadActive)],
                                        issued := s.issued + {id}))
  {
    assert NameIsTaken(s, teamId, name, None) <==> !NameFree(s, teamId, name, {}) by {
      if i :| i in s.squads && s.squads[i].teamId == teamId && s.squads[i].name == name {
        assert Some(i) != None;
      }
    }
  }

  /** A PATCH goes through, and writes the fields it names and no other. */
  lemma PatchExactly(s: Roster, id: Id, p: Patch)
    requires Valid(s)
    ensures var r := Step(s, UpdateSquad(id, p));
            && (r.Ok? <==>
                  && id in s.squads && StatusOf(s, id) != ENDED
                  && (s.squads[id].status == DISBANDED ==> p.status.None? || p.status.value == DISBANDED)
                  && (p.name.Some? ==> NameFree(s, s.squads[id].teamId, p.name.value, {id}))
                  && (p.leaderId.Some? && p.leaderId.value.Some? ==> (id, p.leaderId.value.value) in s.members))
            && (r.Ok? ==>
                  var was, now := s.squads[id], r.value.squads[id];
                  && r.value == s.(squads := s.squads[id := now]) && now.teamId == was.teamId
                  && now.name == (if p.name.Some? then p.name.value else was.name)
                  && now.leaderId == (if p.leaderId.Some? then p.leaderId.value else was.leaderId)
                  && now.status == (if p.status.Some? then p.status.value else was.status))
  {
    if id in s.squads {
      EventsResolve(s, id);
      if p.name.Some? {
        OwnNameIsFree(s, id, p.name.value);
      }
    }
  }

  lemma OwnNameIsFree(s: Roster, id: Id, name: string)
    requires Valid(s) && id in s.squads
    ensures NameIsTaken(s, s.squads[id].teamId, name, Some(id)) <==> !NameFree(s, s.squads[id].teamId, name, {id})
    ensures name == s.squads[id].name ==> NameFree(s, s.squads[id].teamId, name, {id})
  {
    if i :| i in s.squads && i != id && s.squads[i].teamId == s.squads[id].teamId && s.squads[i].name == name {
      assert Some(i) != Some(id);
    }
    forall i | i in s.squads && i != id ensures !SameName(s.squads[i], s.squads[id]) {
    }
  }

  /** Exactly these squads are gone, with their memberships; all others are as they were. */
  ghost predicate Lost(s: Roster, t: Roster, gone: set<Id>) {
    && (forall i :: i in t.squads <==> i in s.squads && i !in gone)
    && (forall i :: i in t.squads ==> t.squads[i] == s.squads[i])
    && (forall m :: m in t.members <==> m in s.members && m.0 !in gone)
    && t.operators == s.operators && t.issued == s.issued
  }

  /** Squads are deleted in DRAFT events only. */
  lemma SquadDeletion(s: Roster, id: Id)
    requires Valid(s)
    ensures var r := Step(s, RemoveSquad(id));
            && (r.Ok? <==> id in s.squads && StatusOf(s, id) == DRAFT)
            && (r.Ok? ==> Lost(s, r.value, {id}) && r.value.teams == s.teams && r.value.events == s.events)
  {
    if id in s.squads {
      EventsResolve(s, id);
    }
  }

  function SquadsOfTeam(s: Roster, id: Id): set<Id> {
    set i | i in s.squads && s.squads[i].teamId == id
  }

  function SquadsOfEvent(s: Roster, id: Id): set<Id>
    requires Valid(s)
  {
    set i | i in s.squads && s.teams[s.squads[i].teamId] == id
  }

  function TeamsOfEvent(s: Roster, id: Id): set<Id> {
    set t | t in s.teams && s.teams[t] == id
  }

  lemma TeamsGone(s: Roster, gone: set<Id>, squads: set<Id>)
    requires forall i :: i in squads <==> i in s.squads && s.squads[i].teamId in gone
    ensures var t := WithoutTeams(s, gone); Lost(s, t, squads) && t.teams == s.teams - gone && t.events == s.events
  {
  }

  /** So are teams, with their squads. */
  lemma TeamDeletion(s: Roster, id: Id)
    requires Valid(s)
    ensures var r := Step(s, RemoveTeam(id));
            && (r.Ok? <==> id in s.teams && s.events[s.teams[id]] == DRAFT)
            && (r.Ok? ==>
                  && Lost(s, r.value, SquadsOfTeam(s, id))
                  && r.value.teams == s.teams - {id} && r.value.events == s.events)
  {
    TeamsGone(s, {id}, SquadsOfTeam(s, id));
  }

  /** And DRAFT events, with their teams and squads. */
  lemma EventDeletion(s: Roster, id: Id)
    requires Valid(s)
    ensures var r := Step(s, RemoveEvent(id));
            && (r.Ok? <==> id in s.events && s.events[id] == DRAFT)
            && (r.Ok? ==>
                  && Lost(s, r.value, SquadsOfEvent(s, id)) && r.value.teams == s.teams - TeamsOfEvent(s, id)
                  && r.value.events == s.events - {id})
  {
    TeamsGone(s, TeamsOfEvent(s, id), SquadsOfEvent(s, id));
  }

  /** New events and teams, and the two steps of an event's life. */
  lemma EventsExactly(s: Roster, id: Id, eventId: Id)
    requires Valid(s)
    ensures Step(s, CreateEvent(id)) ==
            if id in s.issued then Err(IdTaken)
            else Ok(s.(events := s.events[id := DRAFT], issued := s.issued + {id}))
    ensures var r := Step(s, ActivateEvent(id));
            && (r.Ok? <==> id in s.events && s.events[id] == DRAFT)
            && (r.Ok? ==> r.value == s.(events := s.events[id := ACTIVE]))
    ensures var r := Step(s, EndEvent(id));
            && (r.Ok? <==> id in s.events && s.events[id] == ACTIVE)
            && (r.Ok? ==> r.value == s.(events := s.events[id := ENDED]))
    ensures var r := Step(s, CreateTeam(id, eventId));
            && (r.Ok? <==> eventId in s.events && s.events[eventId] != ENDED && id !in s.issued)
            && (r.Ok? ==> r.value == s.(teams := s.teams[id := eventId], issued := s.issued + {id}))
  {
  }

  // ---------- Who is in which squad ----------

  /** The call makes the operator a member of the squad. */
  predicate Joins(s: Roster, op: Op, m: (Id, Id))
    requires Valid(s)
  {
    && op == AddMember(m.0, m.1)
    && m.0 in s.squads && s.squads[m.0].status != DISBANDED && StatusOf(s, m.0) != ENDED
    && m.1 in s.operators && FreeFor(s, EventIdOf(s, m.0), m.1)
  }

  /** The call ends the membership: it is removed, or its squad, team or event is deleted. */
  predicate Parts(s: Roster, op: Op, m: (Id, Id))
    requires Valid(s)
  {
    m.0 in s.squads &&
    if op.RemoveMember? then op == RemoveMember(m.0, m.1) && StatusOf(s, m.0) != ENDED
    else
      StatusOf(s, m.0) == DRAFT &&
      (op == RemoveSquad(m.0) || op == RemoveTeam(s.squads[m.0].teamId) || op == RemoveEvent(EventIdOf(s, m.0)))
  }

  lemma MembersAfterJoin(s: Roster, id: Id, o: Id, m: (Id, Id))
    requires Valid(s)
    ensures var op := AddMember(id, o); m in After(s, op).members <==> m in s.members || Joins(s, op, m)
  {
    JoinExactly(s, id, o);
  }

  lemma MembersAfterLeave(s: Roster, id: Id, o: Id, m: (Id, Id))
    requires Valid(s)
    ensures var op := RemoveMember(id, o); m in After(s, op).members <==> m in s.members && !Parts(s, op, m)
  {
    LeaveExactly(s, id, o);
  }

  lemma MembersAfterDeletion(s: Roster, op: Op, m: (Id, Id))
    requires Valid(s) && (op.RemoveSquad? || op.RemoveTeam? || op.RemoveEvent?)
    ensures m in After(s, op).members <==> m in s.members && !Parts(s, op, m)
  {
    match op
    case RemoveSquad(id) => SquadDeletion(s, id);
    case RemoveTeam(id) => TeamDeletion(s, id);
    case RemoveEvent(id) => EventDeletion(s, id);
  }

  lemma MembersAsBefore(s: Roster, op: Op)
    requires op.CreateEvent? || op.ActivateEvent? || op.EndEvent? || op.CreateTeam? || op.CreateSquad? ||
        op.UpdateSquad?
    ensures After(s, op).members == s.members
  {
  }

  /** One call: the members afterwards are those it lets join, and those there were whom it does not part. */
  lemma MembersAfter(s: Roster, op: Op, m: (Id, Id))
    requires Valid(s)
    ensures m in After(s, op).members <==> (m in s.members && !Parts(s, op, m)) || Joins(s, op, m)
  {
    match op
    case AddMember(id, o) => MembersAfterJoin(s, id, o, m);
    case RemoveMember(id, o) => MembersAfterLeave(s, id, o, m);
    case RemoveSquad(_) => MembersAfterDeletion(s, op, m);
    case RemoveTeam(_) => MembersAfterDeletion(s, op, m);
    case RemoveEvent(_) => MembersAfterDeletion(s, op, m);
    case _ => MembersAsBefore(s, op);
  }

  /** The roster after the first i calls. */
  function At(s: Roster, ops: seq<Op>, i: nat): Roster
    requires i <= |ops|
  {
    Run(s, ops[..i])
  }

  lemma AtNext(s: Roster, ops: seq<Op>, k: nat)
    requires Valid(s) && k < |ops|
    ensures Valid(At(s, ops, k)) && At(s, ops, k + 1) == After(At(s, ops, k), ops[k])
  {
    EveryRunIsValid(s, ops[..k]);
    assert ops[..k + 1][..k] == ops[..k];
  }

  predicate IsMember(s: Roster, ops: seq<Op>, i: int, m: (Id, Id)) {
    0 <= i <= |ops| && m in At(s, ops, i).members
  }

  predicate JoinsAt(s: Roster, ops: seq<Op>, k: int, m: (Id, Id)) {
    0 <= k < |ops| && Valid(At(s, ops, k)) && Joins(At(s, ops, k), ops[k], m)
  }

  predicate PartsAt(s: Roster, ops: seq<Op>, k: int, m: (Id, Id)) {
    0 <= k < |ops| && Valid(At(s, ops, k)) && Parts(At(s, ops, k), ops[k], m)
  }

  function Parting(s: Roster, ops: seq<Op>, m: (Id, Id)): int -> bool {
    (k: int) => PartsAt(s, ops, k, m)
  }

  lemma MembersNext(s: Roster, ops: seq<Op>, k: nat, m: (Id, Id))
    requires Valid(s) && k < |ops|
    ensures IsMember(s, ops, k + 1, m) <==> (IsMember(s, ops, k, m) && !PartsAt(s, ops, k, m)) || JoinsAt(s, ops, k, m)
  {
    AtNext(s, ops, k);
    MembersAfter(At(s, ops, k), ops[k], m);
  }

  /**
   * In every run an operator is in a squad exactly when they were at the start
   * or joined since, and no call parted them afterwards.
   */
  lemma MemberExactlyWhen(s: Roster, ops: seq<Op>, i: nat, m: (Id, Id))
    requires Valid(s) && i <= |ops|
    ensures IsMember(s, ops, i, m) <==>
            || (IsMember(s, ops, 0, m) && Unended(Parting(s, ops, m), 0, i))
            || exists k :: 0 <= k < i && JoinsAt(s, ops, k, m) && Unended(Parting(s, ops, m), k + 1, i)
  {
    var holds, starts := (k: int) => IsMember(s, ops, k, m), (k: int) => JoinsAt(s, ops, k, m);
    forall k | 0 <= k < i ensures Turns(holds, Parting(s, ops, m), starts, k) {
      MembersNext(s, ops, k, m);
    }
    HoldsSince(holds, Parting(s, ops, m), starts, i);
    assert forall k :: starts(k) == JoinsAt(s, ops, k, m);
  }

  // ---------- Once an event is out of DRAFT ----------

  /** The squad is in a started event. */
  predicate Started(s: Roster, id: Id, teamId: Id, event: Id) {
    && id in s.squads && s.squads[id].teamId == teamId && teamId in s.teams && s.teams[teamId] == event
    && event in s.events && s.events[event] != DRAFT
  }

  lemma StartedAfterDeletion(s: Roster, op: Op, id: Id, teamId: Id, event: Id)
    requires Valid(s) && Started(s, id, teamId, event) && (op.RemoveSquad? || op.RemoveTeam? || op.RemoveEvent?)
    ensures Started(After(s, op), id, teamId, event)
  {
    match op
    case RemoveSquad(i) => SquadDeletion(s, i);
    case RemoveTeam(i) => TeamDeletion(s, i);
    case RemoveEvent(i) => EventDeletion(s, i);
  }

  lemma StartedAfterMember(s: Roster, op: Op, id: Id, teamId: Id, event: Id)
    requires Valid(s) && Started(s, id, teamId, event) && (op.AddMember? || op.RemoveMember?)
    ensures Started(After(s, op), id, teamId, event)
  {
    match op
    case AddMember(i, o) => JoinExactly(s, i, o);
    case RemoveMember(i, o) => LeaveExactly(s, i, o);
  }

  lemma StartedAfterSquad(s: Roster, op: Op, id: Id, teamId: Id, event: Id)
    requires Valid(s) && Started(s, id, teamId, event) && (op.CreateSquad? || op.UpdateSquad?)
    ensures Started(After(s, op), id, teamId, event)
  {
    match op
    case CreateSquad(i, t, name) => CreateExactly(s, i, t, name);
    case UpdateSquad(i, p) => PatchExactly(s, i, p);
  }

  lemma StartedAfterEvent(s: Roster, op: Op, id: Id, teamId: Id, event: Id)
    requires Valid(s) && Started(s, id, teamId, event)
    requires op.CreateEvent? || op.ActivateEvent? || op.EndEvent? || op.CreateTeam?
    ensures Started(After(s, op), id, teamId, event)
  {
    EventsExactly(s, op.id, if op.CreateTeam? then op.eventId else op.id);
  }

  /** Once its event has started, no run deletes a squad or moves it to another team or event. */
  lemma {:induction false} StartedEventKeepsSquads(s: Roster, ops: seq<Op>, id: Id, teamId: Id, event: Id)
    requires Valid(s) && Started(s, id, teamId, event)
    ensures Started(Run(s, ops), id, teamId, event)
    decreases |ops|
  {
    if ops != [] {
      var init, op := ops[..|ops| - 1], ops[|ops| - 1];
      EveryRunIsValid(s, init);
      StartedEventKeepsSquads(s, init, id, teamId, event);
      var before := Run(s, init);
      match op
      case AddMember(_, _) => StartedAfterMember(before, op, id, teamId, event);
      case RemoveMember(_, _) => StartedAfterMember(before, op, id, teamId, event);
      case CreateSquad(_, _, _) => StartedAfterSquad(before, op, id, teamId, event);
      case UpdateSquad(_, _) => StartedAfterSquad(before, op, id, teamId, event);
      case RemoveSquad(_) => StartedAfterDeletion(before, op, id, teamId, event);
      case RemoveTeam(_) => StartedAfterDeletion(before, op, id, teamId, event);
      case RemoveEvent(_) => StartedAfterDeletion(before, op, id, teamId, event);
      case _ => StartedAfterEvent(before, op, id, teamId, event);
    }
  }
}
