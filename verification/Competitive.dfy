/** Competitive rounds, eliminations, the scoreboard and the match MVP. */
module Competitive {
  import opened Common
  import opened Lists
  import opened Joins

  datatype EventStatus = DRAFT | ACTIVE_EVENT | ENDED

  datatype Event = Event(competitive: bool, status: EventStatus)

  datatype RoundStatus = ACTIVE | COMPLETED | CANCELLED

  datatype Round = Round(eventId: Id, number: int, status: RoundStatus, startedAt: int, endedAt: Option<int>,
      winner: Option<Id>)

  /** A round is named by its place in the table: rounds are never deleted. */
  datatype Elimination = Elimination(id: Id, round: nat, victim: Id, killer: Option<Id>)

  datatype Match = Match(
    events: map<Id, Event>,
    teams: map<Id, Id>, // teamId to eventId
    roster: set<(Id, Id)>, // (operatorId, eventId)
    rounds: seq<Round>,
    eliminations: seq<Elimination>)

  /** A PATCH body: an absent field is None, a null winner is Some(None). */
  datatype RoundPatch = RoundPatch(status: Option<RoundStatus>, winner: Option<Option<Id>>)

  datatype Error =
    | EventNotFound | NotCompetitive | EventNotActive | RoundAlreadyActive | RoundNotFound | RoundNotActive
    | WinnerNotInEvent | NoSuchTeam | NotOnRoster | SelfElimination | AlreadyEliminated | EliminationNotFound
    | EventNotDraft | EventEnded | IdTaken

  // ---------- Rounds of an event ----------

  /** How many rounds an event has among the first rows of the table. */
  function CountRounds(rounds: seq<Round>, e: Id): nat {
    if rounds == [] then 0
    else CountRounds(rounds[..|rounds| - 1], e) + if rounds[|rounds| - 1].eventId == e then 1 else 0
  }

  /** ORDER BY round_number DESC LIMIT 1, or zero. */
  function LatestNumber(rounds: seq<Round>, e: Id): int {
    if rounds == [] then 0
    else
      var before, last := LatestNumber(rounds[..|rounds| - 1], e), rounds[|rounds| - 1];
      if last.eventId == e && last.number > before then last.number else before
  }

  predicate HasActiveRound(rounds: seq<Round>, e: Id) {
    exists i :: 0 <= i < |rounds| && rounds[i].eventId == e && rounds[i].status == ACTIVE
  }

  /** Its number is one more than the event's rounds before it; if it is ACTIVE, the event has none after it. */
  predicate RoundOk(rounds: seq<Round>, i: nat)
    requires i < |rounds|
  {
    && rounds[i].number == CountRounds(rounds[..i], rounds[i].eventId) + 1
    && (rounds[i].status == ACTIVE ==> forall j :: i < j < |rounds| ==> rounds[j].eventId != rounds[i].eventId)
    && (rounds[i].status == ACTIVE <==> rounds[i].endedAt.None?)
    && (rounds[i].status == CANCELLED ==> rounds[i].winner.None?)
  }

  /** Numbers run 1, 2, 3, ... per event; only the newest round may be ACTIVE. */
  predicate RoundsOk(rounds: seq<Round>) {
    forall i :: 0 <= i < |rounds| ==> RoundOk(rounds, i)
  }

  /** At most one elimination per round and victim; nobody is their own killer. */
  predicate EliminationsOk(s: Match) {
    && (forall i :: 0 <= i < |s.eliminations| ==>
         s.eliminations[i].round < |s.rounds| && s.eliminations[i].killer != Some(s.eliminations[i].victim))
    && (forall i, j :: 0 <= i < j < |s.eliminations| ==>
         !(s.eliminations[i].round == s.eliminations[j].round && s.eliminations[i].victim == s.eliminations[j].victim))
  }

  /** Foreign keys; and only events that were activated have rounds. */
  predicate KeysOk(s: Match) {
    && (forall t :: t in s.teams ==> s.teams[t] in s.events)
    && (forall i :: 0 <= i < |s.rounds|
          ==> s.rounds[i].eventId in s.events && s.events[s.rounds[i].eventId].status != DRAFT)
    && (forall i :: 0 <= i < |s.rounds| && s.rounds[i].winner.Some? ==> s.rounds[i].winner.value in s.teams)
  }

  predicate Valid(s: Match) {
    RoundsOk(s.rounds) && EliminationsOk(s) && KeysOk(s)
  }

  lemma {:induction false} LatestIsCount(rounds: seq<Round>, e: Id)
    requires RoundsOk(rounds)
    ensures LatestNumber(rounds, e) == CountRounds(rounds, e)
    decreases |rounds|
  {
    if rounds != [] {
      var n := |rounds| - 1;
      PrefixOk(rounds, n);
      LatestIsCount(rounds[..n], e);
      assert RoundOk(rounds, n);
    }
  }

  lemma PrefixOk(rounds: seq<Round>, n: nat)
    requires RoundsOk(rounds) && n <= |rounds|
    ensures RoundsOk(rounds[..n])
  {
    forall i | 0 <= i < n ensures RoundOk(rounds[..n], i) {
      assert rounds[..n][..i] == rounds[..i] && RoundOk(rounds, i);
    }
  }

  /** Later rounds of an event have larger numbers, and none is larger than their count. */
  lemma NumbersIncrease(rounds: seq<Round>, i: nat, j: nat)
    requires RoundsOk(rounds) && i < |rounds| && j < |rounds| && rounds[i].eventId == rounds[j].eventId
    ensures 1 <= rounds[i].number <= CountRounds(rounds, rounds[i].eventId)
    ensures i < j ==> rounds[i].number < rounds[j].number
  {
    NumberIsCount(rounds, i);
    NumberIsCount(rounds, j);
    assert rounds[..|rounds|] == rounds;
    CountGrows(rounds, rounds[i].eventId, i + 1, |rounds|);
    if i < j {
      CountGrows(rounds, rounds[i].eventId, i + 1, j);
    }
  }

  lemma NumberIsCount(rounds: seq<Round>, i: nat)
    requires RoundsOk(rounds) && i < |rounds|
    ensures rounds[i].number == CountRounds(rounds[..i], rounds[i].eventId) + 1
    ensures rounds[i].number == CountRounds(rounds[..i + 1], rounds[i].eventId)
  {
    assert RoundOk(rounds, i);
    assert rounds[..i + 1][..i] == rounds[..i];
  }

  lemma {:induction false} NumberOccurs(rounds: seq<Round>, e: Id, k: int) returns (i: nat)
    requires RoundsOk(rounds) && 1 <= k <= CountRounds(rounds, e)
    ensures i < |rounds| && rounds[i].eventId == e && rounds[i].number == k
    decreases |rounds|
  {
    var n := |rounds| - 1;
    PrefixOk(rounds, n);
    assert RoundOk(rounds, n);
    if k <= CountRounds(rounds[..n], e) {
      i := NumberOccurs(rounds[..n], e, k);
    } else {
      i := n;
    }
  }

  /** The round numbers of an event are exactly 1..n: each names one round, and no round has another number. */
  lemma {:induction false} NumbersAreExactly(rounds: seq<Round>, e: Id, k: int)
    requires RoundsOk(rounds)
    ensures 1 <= k <= CountRounds(rounds, e) <==>
         exists i :: 0 <= i < |rounds| && rounds[i].eventId == e && rounds[i].number == k
    ensures forall i, j :: 0 <= i < j < |rounds| && rounds[i].eventId == e && rounds[j].eventId == e ==>
        rounds[i].number < rounds[j].number
  {
    if 1 <= k <= CountRounds(rounds, e) {
      var i := NumberOccurs(rounds, e, k);
    }
    if i :| 0 <= i < |rounds| && rounds[i].eventId == e && rounds[i].number == k {
      NumbersIncrease(rounds, i, i);
    }
    forall i, j | 0 <= i < j < |rounds| && rounds[i].eventId == e && rounds[j].eventId == e
      ensures rounds[i].number < rounds[j].number
    {
      NumbersIncrease(rounds, i, j);
    }
  }

  lemma {:induction false} CountGrows(rounds: seq<Round>, e: Id, i: nat, j: nat)
    requires i <= j <= |rounds|
    ensures CountRounds(rounds[..i], e) <= CountRounds(rounds[..j], e)
    decreases j - i
  {
    if i < j {
      CountGrows(rounds, e, i, j - 1);
      assert rounds[..j][..j - 1] == rounds[..j - 1];
    }
  }

  // ---------- Specification of the operations ----------

  function CreateRoundSpec(s: Match, e: Id, now: int): Result<Match, Error> {
    if e !in s.events then Err(EventNotFound)
    else if !s.events[e].competitive then Err(NotCompetitive)
    else if s.events[e].status != ACTIVE_EVENT then Err(EventNotActive)
    else if HasActiveRound(s.rounds, e) then Err(RoundAlreadyActive)
    else Ok(s.(rounds := s.rounds + [Round(e, LatestNumber(s.rounds, e) + 1, ACTIVE, now, None, None)]))
  }

  /** The winner column after the PATCH: a cancellation clears it, an absent field keeps it. */
  function NewWinner(current: Option<Id>, p: RoundPatch): Option<Id> {
    if p.status == Some(CANCELLED) then None else OrElse(p.winner, current)
  }

  predicate TeamInEvent(s: Match, teamId: Id, e: Id) {
    teamId in s.teams && s.teams[teamId] == e
  }

  function UpdateRoundSpec(s: Match, id: nat, p: RoundPatch, now: int): Result<Match, Error> {
    if id >= |s.rounds| then Err(RoundNotFound)
    else
      var r := s.rounds[id];
      if r.status != ACTIVE then Err(RoundNotActive)
      else if p.status == Some(COMPLETED) && p.winner.Some? && p.winner.value.Some? &&
          !TeamInEvent(s, p.winner.value.value, r.eventId)
      then Err(WinnerNotInEvent)
      else if NewWinner(r.winner, p) != r.winner && NewWinner(r.winner, p).Some? &&
          NewWinner(r.winner, p).value !in s.teams
      then Err(NoSuchTeam) // the foreign key
      else
        Ok(s.(rounds := s.rounds[id := r.(
          status := OrElse(p.status, r.status),
          endedAt := if p.status.Some? then Some(now) else r.endedAt,
          winner := NewWinner(r.winner, p))]))
  }

  function RecordSpec(s: Match, newId: Id, round: nat, victim: Id, killer: Option<Id>): Result<Match, Error> {
    if round >= |s.rounds| then Err(RoundNotFound)
    else if s.rounds[round].status != ACTIVE then Err(RoundNotActive)
    else if (victim, s.rounds[round].eventId) !in s.roster then Err(NotOnRoster)
    else if killer.Some? && (killer.value, s.rounds[round].eventId) !in s.roster then Err(NotOnRoster)
    else if killer == Some(victim) then Err(SelfElimination)
    else if DiedIn(s, victim, round)
    then Err(AlreadyEliminated)
    else Ok(s.(eliminations := s.eliminations + [Elimination(newId, round, victim, killer)]))
  }

  /** The place of a primary key in the table, or its length. */
  function PlaceOf(rows: seq<Elimination>, id: Id): (i: nat)
    ensures i <= |rows| && (i < |rows| ==> rows[i].id == id)
    ensures i == |rows| ==> forall k :: 0 <= k < |rows| ==> rows[k].id != id
  {
    if rows == [] || rows[0].id == id then 0 else 1 + PlaceOf(rows[1..], id)
  }

  function DeleteSpec(s: Match, id: Id): Result<Match, Error> {
    var i := PlaceOf(s.eliminations, id);
    if i >= |s.eliminations| then Err(EliminationNotFound)
    else Ok(s.(eliminations := s.eliminations[..i] + s.eliminations[i + 1..]))
  }

  // ---------- Events and teams: the callers ----------

  predicate HasStatus(s: Match, e: Id, status: EventStatus) {
    e in s.events && s.events[e].status == status
  }

  function Unwon(gone: set<Id>): Round -> Round {
    (r: Round) => if r.winner.Some? && r.winner.value in gone then r.(winner := None) else r
  }

  /** Deleting teams: ON DELETE SET NULL on the winner column. */
  function WithoutTeams(s: Match, gone: set<Id>): Match {
    s.(teams := map t | t in s.teams && t !in gone :: s.teams[t], rounds := Map(s.rounds, Unwon(gone)))
  }

  function TeamsOf(s: Match, e: Id): set<Id> {
    set t | t in s.teams && s.teams[t] == e
  }

  function RemoveTeamSpec(s: Match, teamId: Id): Result<Match, Error> {
    if teamId !in s.teams then Err(NoSuchTeam)
    else if !HasStatus(s, s.teams[teamId], DRAFT) then Err(EventNotDraft)
    else Ok(WithoutTeams(s, {teamId}))
  }

  /** Deleting an event deletes its teams. A DRAFT event has no rounds to delete. */
  function RemoveEventSpec(s: Match, e: Id): Result<Match, Error> {
    if e !in s.events then Err(EventNotFound)
    else if s.events[e].status != DRAFT then Err(EventNotDraft)
    else Ok(WithoutTeams(s, TeamsOf(s, e)).(events := map x | x in s.events && x != e :: s.events[x]))
  }

  function AddTeamSpec(s: Match, teamId: Id, e: Id): Result<Match, Error> {
    if e !in s.events then Err(EventNotFound)
    else if s.events[e].status == ENDED then Err(EventEnded)
    else if teamId in s.teams then Err(IdTaken)
    else Ok(s.(teams := s.teams[teamId := e]))
  }

  /** The mode of an event can be edited, and the event activated, only from DRAFT; it is ended from ACTIVE. */
  function ChangeEventSpec(s: Match, e: Id, from: EventStatus, after: Event): Result<Match, Error> {
    if e !in s.events then Err(EventNotFound)
    else if s.events[e].status != from then Err(if from == DRAFT then EventNotDraft else EventNotActive)
    else Ok(s.(events := s.events[e := after]))
  }

  datatype Op =
    | CreateRound(eventId: Id, now: int)
    | UpdateRound(round: nat, patch: RoundPatch, now: int)
    | RecordElimination(newId: Id, round: nat, victim: Id, killer: Option<Id>)
    | DeleteElimination(id: Id)
    | AddTeam(teamId: Id, eventId: Id)
    | RemoveTeam(teamId: Id)
    | CreateEvent(eventId: Id, competitive: bool)
    | EditEvent(eventId: Id, competitive: bool)
    | ActivateEvent(eventId: Id)
    | EndEvent(eventId: Id)
    | RemoveEvent(eventId: Id)
    | EditRoster(roster: set<(Id, Id)>)

  /** The parser accepts only COMPLETED and CANCELLED as a new status. */
  predicate Acceptable(op: Op) {
    op.UpdateRound? ==> op.patch.status != Some(ACTIVE)
  }

  function Step(s: Match, op: Op): Result<Match, Error> {
    match op
    case CreateRound(e, now) => CreateRoundSpec(s, e, now)
    case UpdateRound(round, patch, now) => UpdateRoundSpec(s, round, patch, now)
    case RecordElimination(newId, round, victim, killer) => RecordSpec(s, newId, round, victim, killer)
    case DeleteElimination(id) => DeleteSpec(s, id)
    case AddTeam(t, e) => AddTeamSpec(s, t, e)
    case RemoveTeam(t) => RemoveTeamSpec(s, t)
    case CreateEvent(e, competitive) => if e in s.events then Err(IdTaken)
        else Ok(s.(events := s.events[e := Event(competitive, DRAFT)]))
    case EditEvent(e, competitive) => ChangeEventSpec(s, e, DRAFT, Event(competitive, DRAFT))
    case ActivateEvent(e) => ChangeEventSpec(s, e, DRAFT, Event(IsCompetitive(s, e), ACTIVE_EVENT))
    case EndEvent(e) => ChangeEventSpec(s, e, ACTIVE_EVENT, Event(IsCompetitive(s, e), ENDED))
    case RemoveEvent(e) => RemoveEventSpec(s, e)
    case EditRoster(roster) => Ok(s.(roster := roster))
  }

  predicate IsCompetitive(s: Match, e: Id) {
    e in s.events && s.events[e].competitive
  }

  function After(s: Match, op: Op): Match {
    if Step(s, op).Ok? then Step(s, op).value else s
  }

  function Run(s: Match, ops: seq<Op>): Match {
    if ops == [] then s else After(Run(s, ops[..|ops| - 1]), ops[|ops| - 1])
  }

  // ---------- The invariant over every run ----------

  lemma NewRoundOk(rounds: seq<Round>, r: Round)
    requires RoundsOk(rounds) && !HasActiveRound(rounds, r.eventId)
    requires r.number == CountRounds(rounds, r.eventId) + 1 && r.status == ACTIVE && r.endedAt.None?
    ensures RoundsOk(rounds + [r])
  {
    var after := rounds + [r];
    forall i | 0 <= i < |after| ensures RoundOk(after, i) {
      if i < |rounds| {
        assert after[..i] == rounds[..i] && RoundOk(rounds, i);
      } else {
        assert after[..i] == rounds;
      }
    }
  }

  lemma CreateKeepsValid(s: Match, e: Id, now: int)
    requires Valid(s)
    ensures Valid(After(s, CreateRound(e, now)))
    ensures var r := CreateRoundSpec(s, e, now);
            r.Ok? ==>
              && |r.value.rounds| == |s.rounds| + 1
              && r.value.rounds[|s.rounds|].number == CountRounds(r.value.rounds, e)
  {
    LatestIsCount(s.rounds, e);
    var r := CreateRoundSpec(s, e, now);
    if r.Ok? {
      var last := Round(e, LatestNumber(s.rounds, e) + 1, ACTIVE, now, None, None);
      NewRoundOk(s.rounds, last);
      assert r.value.rounds == s.rounds + [last] && (s.rounds + [last])[..|s.rounds|] == s.rounds;
    }
  }

  lemma {:induction false} CountIgnoresEdits(rounds: seq<Round>, after: seq<Round>, e: Id)
    requires |rounds| == |after| && forall i :: 0 <= i < |rounds| ==> rounds[i].eventId == after[i].eventId
    ensures CountRounds(rounds, e) == CountRounds(after, e)
    decreases |rounds|
  {
    if rounds != [] {
      CountIgnoresEdits(rounds[..|rounds| - 1], after[..|rounds| - 1], e);
    }
  }

  lemma RoundsEnded(rounds: seq<Round>)
    requires RoundsOk(rounds)
    ensures forall i :: 0 <= i < |rounds| ==>
      (rounds[i].status == ACTIVE <==> rounds[i].endedAt.None?) && (rounds[i].status == CANCELLED ==>
          rounds[i].winner.None?)
  {
    forall i | 0 <= i < |rounds|
      ensures (rounds[i].status == ACTIVE <==> rounds[i].endedAt.None?) && (rounds[i].status == CANCELLED ==>
          rounds[i].winner.None?)
    {
      assert RoundOk(rounds, i);
    }
  }

  /** Closing rounds, or changing who won, keeps the numbering and the rest. */
  lemma EditedRoundsOk(rounds: seq<Round>, after: seq<Round>)
    requires RoundsOk(rounds) && |after| == |rounds|
    requires forall i :: 0 <= i < |rounds| ==>
      && after[i].eventId == rounds[i].eventId && after[i].number == rounds[i].number
      && (after[i].status == ACTIVE ==> rounds[i].status == ACTIVE)
      && (after[i].status == ACTIVE <==> after[i].endedAt.None?)
      && (after[i].status == CANCELLED ==> after[i].winner.None?)
    ensures RoundsOk(after)
  {
    forall i | 0 <= i < |after| ensures RoundOk(after, i) {
      CountIgnoresEdits(rounds[..i], after[..i], rounds[i].eventId);
      assert RoundOk(rounds, i);
    }
  }

  lemma UpdateKeepsValid(s: Match, id: nat, p: RoundPatch, now: int)
    requires Valid(s) && p.status != Some(ACTIVE)
    ensures Valid(After(s, UpdateRound(id, p, now)))
  {
    RoundsEnded(s.rounds);
    EditedRoundsOk(s.rounds, After(s, UpdateRound(id, p, now)).rounds);
  }

  lemma RecordKeepsValid(s: Match, newId: Id, round: nat, victim: Id, killer: Option<Id>)
    requires Valid(s)
    ensures Valid(After(s, RecordElimination(newId, round, victim, killer)))
  {
  }

  lemma DeleteKeepsValid(s: Match, id: Id)
    requires Valid(s)
    ensures Valid(After(s, DeleteElimination(id)))
  {
    var place := PlaceOf(s.eliminations, id);
    if place < |s.eliminations| {
      OneEliminationLess(s, place);
    }
  }

  lemma OneEliminationLess(s: Match, place: nat)
    requires EliminationsOk(s) && place < |s.eliminations|
    ensures EliminationsOk(s.(eliminations := s.eliminations[..place] + s.eliminations[place + 1..]))
  {
    var kept := s.eliminations[..place] + s.eliminations[place + 1..];
    assert forall i :: 0 <= i < |kept| ==> kept[i] == s.eliminations[if i < place then i else i + 1];
  }

  lemma CascadeKeepsValid(s: Match, gone: set<Id>)
    requires Valid(s)
    ensures Valid(WithoutTeams(s, gone))
  {
    RoundsEnded(s.rounds);
    EditedRoundsOk(s.rounds, WithoutTeams(s, gone).rounds);
  }

  lemma RemovalKeepsValid(s: Match, op: Op)
    requires Valid(s) && (op.RemoveTeam? || op.RemoveEvent?)
    ensures Valid(After(s, op))
  {
    if op.RemoveTeam? {
      CascadeKeepsValid(s, {op.teamId});
    } else {
      CascadeKeepsValid(s, TeamsOf(s, op.eventId));
    }
  }

  lemma EventStepKeepsValid(s: Match, op: Op)
    requires Valid(s) && (op.AddTeam? || op.CreateEvent? || op.EditEvent? || op.ActivateEvent? || op.EndEvent? ||
        op.EditRoster?)
    ensures Valid(After(s, op))
  {
    assert After(s, op).rounds == s.rounds && After(s, op).eliminations == s.eliminations;
    assert EliminationsOk(After(s, op));
  }

  lemma StepKeepsValid(s: Match, op: Op)
    requires Valid(s) && Acceptable(op)
    ensures Valid(After(s, op))
  {
    match op
    case CreateRound(e, now) => CreateKeepsValid(s, e, now);
    case UpdateRound(round, patch, now) => UpdateKeepsValid(s, round, patch, now);
    case RecordElimination(newId, round, victim, killer) => RecordKeepsValid(s, newId, round, victim, killer);
    case DeleteElimination(id) => DeleteKeepsValid(s, id);
    case RemoveTeam(_) => RemovalKeepsValid(s, op);
    case RemoveEvent(_) => RemovalKeepsValid(s, op);
    case _ => EventStepKeepsValid(s, op);
  }

  /** In every reachable state the rounds of each event are numbered 1..n, only round n may be ACTIVE, and so on. */
  lemma {:induction false} EveryRunIsValid(s: Match, ops: seq<Op>)
    requires Valid(s) && forall i :: 0 <= i < |ops| ==> Acceptable(ops[i])
    ensures Valid(Run(s, ops))
    decreases |ops|
  {
    if ops != [] {
      EveryRunIsValid(s, ops[..|ops| - 1]);
      StepKeepsValid(Run(s, ops[..|ops| - 1]), ops[|ops| - 1]);
    }
  }

  // ---------- Winners ----------

  /** Every recorded winner is a team of the round's event. */
  predicate WinnersOk(s: Match) {
    forall i :: 0 <= i < |s.rounds| && s.rounds[i].winner.Some? ==>
        TeamInEvent(s, s.rounds[i].winner.value, s.rounds[i].eventId)
  }

  /** A PATCH without a status that names an existing team of another event. */
  predicate NamesForeignWinner(s: Match, op: Op) {
    && op.UpdateRound?
    && op.patch.status.None? && op.patch.winner.Some? && op.patch.winner.value.Some?
    && op.round < |s.rounds| && s.rounds[op.round].status == ACTIVE
    && op.patch.winner.value.value in s.teams
    && s.teams[op.patch.winner.value.value] != s.rounds[op.round].eventId
  }

  lemma UpdatedWinner(s: Match, id: nat, p: RoundPatch, now: int)
    requires WinnersOk(s) && p.status != Some(ACTIVE)
    ensures WinnersOk(After(s, UpdateRound(id, p, now))) <==> !NamesForeignWinner(s, UpdateRound(id, p, now))
  {
    var op := UpdateRound(id, p, now);
    var t := After(s, op);
    if NamesForeignWinner(s, op) {
      assert t.rounds[id].winner == p.winner.value && t.rounds[id].eventId == s.rounds[id].eventId;
    } else if Step(s, op).Ok? {
      assert forall i :: 0 <= i < |s.rounds| && i != id ==> t.rounds[i] == s.rounds[i];
      var r, w := s.rounds[id], NewWinner(s.rounds[id].winner, p);
      assert t.rounds[id].winner == w && t.rounds[id].eventId == r.eventId;
      if w.Some? && w == r.winner {
        assert TeamInEvent(s, w.value, r.eventId);
      } else if w.Some? {
        assert p.winner == Some(w) && w.value in s.teams;
        assert p.status.Some? ==> p.status.value.COMPLETED?;
        assert TeamInEvent(s, w.value, r.eventId);
      }
    }
  }

  /** Winners stay teams of their event exactly as long as no such PATCH is made. */
  lemma WinnersOkUnlessForeign(s: Match, op: Op)
    requires Acceptable(op) && WinnersOk(s)
    ensures WinnersOk(After(s, op)) <==> !NamesForeignWinner(s, op)
  {
    var t := After(s, op);
    if op.UpdateRound? {
      UpdatedWinner(s, op.round, op.patch, op.now);
    } else {
      forall i | 0 <= i < |t.rounds| && t.rounds[i].winner.Some?
        ensures TeamInEvent(t, t.rounds[i].winner.value, t.rounds[i].eventId)
      {
        assert i < |s.rounds| && t.rounds[i] == s.rounds[i];
      }
    }
  }

  // ---------- When a closed round changes ----------

  /** The team that won round i is deleted, by itself or with its event; both need its event to be DRAFT. */
  predicate TakesWinner(s: Match, op: Op, i: nat)
    requires i < |s.rounds|
  {
    && s.rounds[i].winner.Some? && s.rounds[i].winner.value in s.teams
    && HasStatus(s, s.teams[s.rounds[i].winner.value], DRAFT)
    && ((op.RemoveTeam? && op.teamId == s.rounds[i].winner.value)
        || (op.RemoveEvent? && op.eventId == s.teams[s.rounds[i].winner.value]))
  }

  predicate Closed(s: Match, i: nat) {
    i < |s.rounds| && s.rounds[i].status != ACTIVE
  }

  /** A step leaves a closed round as it is, except that deleting the team that won it clears the winner. */
  lemma ClosedRoundAfter(s: Match, op: Op, i: nat)
    requires Closed(s, i)
    ensures Closed(After(s, op), i)
    ensures After(s, op).rounds[i] == if TakesWinner(s, op, i) then s.rounds[i].(winner := None) else s.rounds[i]
  {
  }

  function NotTaking(s: Match, i: nat): (seq<Op>, Op) -> bool {
    (ops: seq<Op>, op: Op) => i < |Run(s, ops).rounds| ==> !TakesWinner(Run(s, ops), op, i)
  }

  lemma {:induction false} ClosedThroughRun(s: Match, ops: seq<Op>, i: nat)
    requires Closed(s, i)
    ensures Closed(Run(s, ops), i)
    ensures Run(s, ops).rounds[i] == if AtEachStep(ops, NotTaking(s, i)) then s.rounds[i]
        else s.rounds[i].(winner := None)
    ensures !AtEachStep(ops, NotTaking(s, i)) ==> s.rounds[i].winner.Some?
    decreases |ops|
  {
    if ops != [] {
      var init, last := ops[..|ops| - 1], ops[|ops| - 1];
      ClosedThroughRun(s, init, i);
      ClosedRoundAfter(Run(s, init), last, i);
      AtEachStepSnoc(ops, NotTaking(s, i));
      assert Run(s, ops) == After(Run(s, init), last);
      assert NotTaking(s, i)(init, last) == !TakesWinner(Run(s, init), last, i);
    }
  }

  /**
   * Through any run a closed round keeps every column but the winner, and it
   * keeps the winner as well exactly when no step of the run deletes the team
   * that won it.
   */
  lemma ClosedRoundKeptExactlyWhen(s: Match, ops: seq<Op>, i: nat)
    requires Closed(s, i)
    ensures Closed(Run(s, ops), i)
    ensures Run(s, ops).rounds[i].(winner := s.rounds[i].winner) == s.rounds[i]
    ensures Run(s, ops).rounds[i] == s.rounds[i] <==>
            forall k :: 0 <= k < |ops| ==> var before := Run(s, ops[..k]);
                i < |before.rounds| ==> !TakesWinner(before, ops[k], i)
  {
    ClosedThroughRun(s, ops, i);
    assert forall k :: 0 <= k < |ops| ==>
      NotTaking(s, i)(ops[..k], ops[k]) == (i < |Run(s, ops[..k]).rounds| ==>
          !TakesWinner(Run(s, ops[..k]), ops[k], i));
  }

  /** As long as every winner is a team of its own event, nothing can change a closed round. */
  lemma {:induction false} ClosedRoundsAreFrozen(s: Match, ops: seq<Op>, i: nat)
    requires Valid(s) && WinnersOk(s) && Closed(s, i)
    requires forall k :: 0 <= k < |ops| ==> Acceptable(ops[k]) && !NamesForeignWinner(Run(s, ops[..k]), ops[k])
    ensures WinnersOk(Run(s, ops)) && Closed(Run(s, ops), i) && Run(s, ops).rounds[i] == s.rounds[i]
    decreases |ops|
  {
    if ops != [] {
      var init, last := ops[..|ops| - 1], ops[|ops| - 1];
      assert forall k :: 0 <= k < |init| ==> init[..k] == ops[..k] && init[k] == ops[k];
      ClosedRoundsAreFrozen(s, init, i);
      EveryRunIsValid(s, init);
      var before := Run(s, init);
      WinnersOkUnlessForeign(before, last);
      ClosedRoundAfter(before, last, i);
      assert before.rounds[i].winner.Some? ==>
          TeamInEvent(before, before.rounds[i].winner.value, before.rounds[i].eventId);
      assert !TakesWinner(before, last, i);
    }
  }

  /**
   * Otherwise it can: a round won by a team of a DRAFT event, through a PATCH
   * without a status, loses its winner with that team.
   */
  lemma ForeignWinCanBeErased(s: Match, i: nat, team: Id, now: int)
    requires Valid(s) && i < |s.rounds| && s.rounds[i].status == ACTIVE
    requires team in s.teams && HasStatus(s, s.teams[team], DRAFT)
    ensures var won := After(s, UpdateRound(i, RoundPatch(None, Some(Some(team))), now));
            var closed := After(won, UpdateRound(i, RoundPatch(Some(COMPLETED), None), now));
            var erased := After(closed, RemoveTeam(team));
            && NamesForeignWinner(s, UpdateRound(i, RoundPatch(None, Some(Some(team))), now))
            && Closed(closed, i) && closed.rounds[i].status == COMPLETED && closed.rounds[i].winner == Some(team)
            && i < |erased.rounds| && erased.rounds[i] == closed.rounds[i].(winner := None)
  {
    var won := After(s, UpdateRound(i, RoundPatch(None, Some(Some(team))), now));
    assert won.rounds[i] == s.rounds[i].(winner := Some(team)) && won.teams == s.teams && won.events == s.events;
    var closed := After(won, UpdateRound(i, RoundPatch(Some(COMPLETED), None), now));
    assert closed.rounds[i] == won.rounds[i].(status := COMPLETED, endedAt := Some(now)) && closed.teams == s.teams &&
        closed.events == s.events;
    ClosedRoundAfter(closed, RemoveTeam(team), i);
  }

  // ---------- Scoreboard ----------

  /** Whether an elimination is a death of the operator in the event. */
  function Death(s: Match, e: Id, op: Id): Elimination -> int {
    (x: Elimination) => if x.victim == op && x.round < |s.rounds| && s.rounds[x.round].eventId == e then 1 else 0
  }

  function Deaths(s: Match, e: Id, op: Id): nat {
    SumFromZero(s.eliminations, Death(s, e, op));
    Sum(s.eliminations, Death(s, e, op))
  }

  function Kill(s: Match, e: Id, op: Id): Elimination -> int {
    (x: Elimination) => if x.killer == Some(op) && x.round < |s.rounds| && s.rounds[x.round].eventId == e then 1 else 0
  }

  function Kills(s: Match, e: Id, op: Id): nat {
    SumFromZero(s.eliminations, Kill(s, e, op));
    Sum(s.eliminations, Kill(s, e, op))
  }

  function RoundsPlayed(s: Match, e: Id): int {
    CountRounds(s.rounds, e)
  }

  /** Math.max(0, roundsPlayed - deaths). */
  function RoundsSurvived(s: Match, e: Id, op: Id): int {
    if RoundsPlayed(s, e) - Deaths(s, e, op) > 0 then RoundsPlayed(s, e) - Deaths(s, e, op) else 0
  }

  predicate DiedIn(s: Match, op: Id, i: int) {
    exists k :: 0 <= k < |s.eliminations| && s.eliminations[k].round == i && s.eliminations[k].victim == op
  }

  /** The rounds of the event in which the operator was not eliminated. */
  function Survived(s: Match, e: Id, op: Id): int -> int {
    (i: int) => if 0 <= i < |s.rounds| && s.rounds[i].eventId == e && !DiedIn(s, op, i) then 1 else 0
  }

  function OfEvent(s: Match, e: Id): int -> int {
    (i: int) => if 0 <= i < |s.rounds| && s.rounds[i].eventId == e then 1 else 0
  }

  function Indices(n: nat): seq<int> {
    seq(n, i requires 0 <= i < n => i)
  }

  function DeathCell(s: Match, e: Id, op: Id): (int, Elimination) -> int {
    (i: int, x: Elimination) => if x.round == i && x.victim == op && 0 <= i < |s.rounds| &&
        s.rounds[i].eventId == e then 1 else 0
  }

  function FatalRound(s: Match, e: Id, op: Id): int -> int {
    (i: int) => OfEvent(s, e)(i) - Survived(s, e, op)(i)
  }

  lemma {:induction false} CountIsSum(s: Match, e: Id, n: nat)
    requires n <= |s.rounds|
    ensures CountRounds(s.rounds[..n], e) == Sum(Indices(n), OfEvent(s, e))
  {
    if n > 0 {
      CountIsSum(s, e, n - 1);
      assert s.rounds[..n][..n - 1] == s.rounds[..n - 1];
      assert Indices(n) == Indices(n - 1) + [n - 1];
      SumAppend(Indices(n - 1), [n - 1], OfEvent(s, e));
    }
  }

  /** A round holds one elimination of a victim, or none. */
  lemma {:induction false} OneDeathPerRound(s: Match, e: Id, op: Id, i: int, xs: seq<Elimination>)
    requires 0 <= i < |s.rounds| && s.rounds[i].eventId == e
    requires forall j, k :: 0 <= j < k < |xs| ==> !(xs[j].round == xs[k].round && xs[j].victim == xs[k].victim)
    ensures Sum(xs, InRow(DeathCell(s, e, op), i)) ==
            if exists k :: 0 <= k < |xs| && xs[k].round == i && xs[k].victim == op then 1 else 0
  {
    if xs != [] {
      OneDeathPerRound(s, e, op, i, xs[1..]);
      if xs[0].round == i && xs[0].victim == op {
        assert forall k :: 0 <= k < |xs[1..]| ==> xs[1..][k] == xs[k + 1];
      } else {
        assert forall k :: 1 <= k < |xs| ==> xs[k] == xs[1..][k - 1];
      }
    }
  }

  lemma DeathsOfRound(s: Match, e: Id, op: Id, i: int)
    requires EliminationsOk(s) && 0 <= i < |s.rounds|
    ensures RowSum(s.eliminations, DeathCell(s, e, op))(i) == FatalRound(s, e, op)(i)
  {
    if s.rounds[i].eventId == e {
      OneDeathPerRound(s, e, op, i, s.eliminations);
      assert Survived(s, e, op)(i) == (if DiedIn(s, op, i) then 0 else 1);
      assert OfEvent(s, e)(i) == 1;
    } else {
      SumOfZero(s.eliminations, InRow(DeathCell(s, e, op), i));
      assert OfEvent(s, e)(i) == 0 && Survived(s, e, op)(i) == 0;
    }
  }

  lemma DeathsByRound(s: Match, e: Id, op: Id)
    requires EliminationsOk(s)
    ensures Deaths(s, e, op) == Sum(Indices(|s.rounds|), FatalRound(s, e, op))
  {
    var rows, h := Indices(|s.rounds|), DeathCell(s, e, op);
    forall i | i in rows ensures RowSum(s.eliminations, h)(i) == FatalRound(s, e, op)(i) {
      DeathsOfRound(s, e, op, i);
    }
    SumSame(rows, RowSum(s.eliminations, h), FatalRound(s, e, op));
    SumSwap(rows, s.eliminations, h);
    forall x | x in s.eliminations ensures ColumnSum(rows, h)(x) == Death(s, e, op)(x) {
      OneKeyCounts(rows, x.round, InColumn(h, x));
      assert rows[x.round] == x.round;
    }
    SumSame(s.eliminations, ColumnSum(rows, h), Death(s, e, op));
  }

  /**
   * An operator dies at most once per round, so the clamp is idle and
   * roundsSurvived is exactly the number of rounds without their elimination.
   */
  lemma SurvivedIsExact(s: Match, e: Id, op: Id)
    requires EliminationsOk(s)
    ensures Deaths(s, e, op) <= RoundsPlayed(s, e)
    ensures RoundsSurvived(s, e, op) == Sum(Indices(|s.rounds|), Survived(s, e, op))
  {
    var rows := Indices(|s.rounds|);
    DeathsByRound(s, e, op);
    CountIsSum(s, e, |s.rounds|);
    assert s.rounds[..|s.rounds|] == s.rounds;
    SumOfSum(rows, FatalRound(s, e, op), Survived(s, e, op), OfEvent(s, e));
    SumFromZero(rows, Survived(s, e, op));
  }

  // ---------- The service ----------

  class CompetitiveService {
    var events: map<Id, Event>
    var teams: map<Id, Id>
    var roster: set<(Id, Id)>
    var rounds: seq<Round>
    var eliminations: seq<Elimination>

    constructor (events: map<Id, Event>, teams: map<Id, Id>, roster: set<(Id, Id)>)
      requires forall t :: t in teams ==> teams[t] in events
      ensures State() == Match(events, teams, roster, [], []) && Valid(State())
    {
      this.events, this.teams, this.roster := events, teams, roster;
      rounds, eliminations := [], [];
    }

    function State(): Match
      reads this
    {
      Match(events, teams, roster, rounds, eliminations)
    }

    /** findFirst ordered by round number, descending. */
    method FindLatest(e: Id) returns (latest: int)
      ensures latest == LatestNumber(rounds, e)
    {
      latest := 0;
      for i := 0 to |rounds|
        invariant latest == LatestNumber(rounds[..i], e)
      {
        assert rounds[..i + 1][..i] == rounds[..i];
        if rounds[i].eventId == e && rounds[i].number > latest {
          latest := rounds[i].number;
        }
      }
      assert rounds[..|rounds|] == rounds;
    }

    method StartRound(e: Id, now: int) returns (r: Result<Round, Error>)
      requires Valid(State())
      modifies this`rounds
      ensures Valid(State())
      ensures match CreateRoundSpec(old(State()), e, now)
              case Ok(s) => State() == s && r == Ok(rounds[|rounds| - 1]) &&
                  rounds[|rounds| - 1].number == CountRounds(rounds, e)
              case Err(err) => r == Err(err) && State() == old(State())
    {
      CreateKeepsValid(State(), e, now);
      if e !in events {
        return Err(EventNotFound);
      }
      if !events[e].competitive {
        return Err(NotCompetitive);
      }
      if events[e].status != ACTIVE_EVENT {
        return Err(EventNotActive);
      }
      if HasActiveRound(rounds, e) {
        return Err(RoundAlreadyActive);
      }
      var latest := FindLatest(e);
      var round := Round(e, latest + 1, ACTIVE, now, None, None);
      rounds := rounds + [round];
      return Ok(round);
    }

    /** The team check runs only when the PATCH completes the round. */
    method PatchRound(id: nat, p: RoundPatch, now: int) returns (r: Result<Round, Error>)
      requires Valid(State()) && p.status != Some(ACTIVE)
      modifies this`rounds
      ensures Valid(State())
      ensures match UpdateRoundSpec(old(State()), id, p, now)
              case Ok(s) => State() == s && r == Ok(rounds[id])
              case Err(err) => r == Err(err) && State() == old(State())
    {
      UpdateKeepsValid(State(), id, p, now);
      if id >= |rounds| {
        return Err(RoundNotFound);
      }
      var existing := rounds[id];
      if existing.status != ACTIVE {
        return Err(RoundNotActive);
      }
      var winner := p.winner;
      if p.status == Some(COMPLETED) {
        if winner.Some? && winner.value.Some? {
          if !TeamInEvent(State(), winner.value.value, existing.eventId) {
            return Err(WinnerNotInEvent);
          }
        }
      } else if p.status == Some(CANCELLED) {
        winner := Some(None);
      }
      var round := existing;
      if p.status.Some? {
        round := round.(status := p.status.value, endedAt := Some(now));
      }
      if winner.Some? {
        if winner.value != existing.winner && winner.value.Some? && winner.value.value !in teams {
          return Err(NoSuchTeam);
        }
        round := round.(winner := winner.value);
      }
      rounds := rounds[id := round];
      return Ok(round);
    }

    method Eliminate(newId: Id, round: nat, victim: Id, killer: Option<Id>) returns (r: Result<Elimination, Error>)
      requires Valid(State())
      modifies this`eliminations
      ensures Valid(State())
      ensures match RecordSpec(old(State()), newId, round, victim, killer)
              case Ok(s) => State() == s && r == Ok(Elimination(newId, round, victim, killer))
              case Err(err) => r == Err(err) && State() == old(State())
    {
      RecordKeepsValid(State(), newId, round, victim, killer);
      if round >= |rounds| {
        return Err(RoundNotFound);
      }
      if rounds[round].status != ACTIVE {
        return Err(RoundNotActive);
      }
      var e := rounds[round].eventId;
      if (victim, e) !in roster {
        return Err(NotOnRoster);
      }
      if killer.Some? {
        if (killer.value, e) !in roster {
          return Err(NotOnRoster);
        }
        if killer.value == victim {
          return Err(SelfElimination);
        }
      }
      if exists i :: 0 <= i < |eliminations| && eliminations[i].round == round && eliminations[i].victim == victim {
        return Err(AlreadyEliminated);
      }
      eliminations := eliminations + [Elimination(newId, round, victim, killer)];
      return Ok(Elimination(newId, round, victim, killer));
    }

    method Undo(id: Id) returns (r: Result<(), Error>)
      requires Valid(State())
      modifies this`eliminations
      ensures Valid(State())
      ensures match DeleteSpec(old(State()), id)
              case Ok(s) => State() == s && r == Ok(())
              case Err(err) => r == Err(err) && State() == old(State())
    {
      DeleteKeepsValid(State(), id);
      var place := PlaceOf(eliminations, id);
      if place >= |eliminations| {
        return Err(EliminationNotFound);
      }
      eliminations := eliminations[..place] + eliminations[place + 1..];
      return Ok(());
    }
  }
}

/** What each call on rounds, eliminations, teams and events asks for and what it then writes, column by column. */
module RoundCalls {
  import opened Common
  import opened Lists
  import opened Competitive

  /** A round starts in an activated competitive event without a running round, with the next number and no winner. */
  lemma CreateExactly(s: Match, e: Id, now: int)
    requires Valid(s)
    ensures var r := Step(s, CreateRound(e, now));
            && (r.Ok? <==>
                  && e in s.events && s.events[e].competitive && s.events[e].status == ACTIVE_EVENT
                  && forall i :: 0 <= i < |s.rounds| && s.rounds[i].eventId == e ==> s.rounds[i].status != ACTIVE)
            && (r.Ok? ==>
                  r.value == s.(rounds := s.rounds + [Round(e, CountRounds(s.rounds, e) + 1, ACTIVE, now, None, None)]))
  {
    LatestIsCount(s.rounds, e);
  }

  /** The team a PATCH asks to record as the winner, unless the PATCH cancels. */
  function Named(p: RoundPatch): Option<Id> {
    if p.status == Some(CANCELLED) || p.winner.None? then None else p.winner.value
  }

  /**
   * A PATCH goes through on an ACTIVE round, if the team it names exists, and
   * is one of the event when the PATCH completes the round.
   */
  lemma PatchGoesThrough(s: Match, i: nat, p: RoundPatch, now: int)
    requires Valid(s) && p.status != Some(ACTIVE)
    ensures Step(s, UpdateRound(i, p, now)).Ok? <==>
            && i < |s.rounds| && s.rounds[i].status == ACTIVE
            && (Named(p).Some? ==> Named(p).value in s.teams)
            && (Named(p).Some? && p.status == Some(COMPLETED) ==> s.teams[Named(p).value] == s.rounds[i].eventId)
  {
  }

  /**
   * What it writes: the status it names and, with it, the time; and the winner
   * it names, or none on a cancellation, or the one there was.
   */
  lemma PatchWrites(s: Match, i: nat, p: RoundPatch, now: int)
    requires p.status != Some(ACTIVE) && Step(s, UpdateRound(i, p, now)).Ok?
    ensures var t := Step(s, UpdateRound(i, p, now)).value; var was, after := s.rounds[i], t.rounds[i];
            && t == s.(rounds := s.rounds[i := after])
            && after.eventId == was.eventId && after.number == was.number && after.startedAt == was.startedAt
            && after.status == (if p.status.Some? then p.status.value else was.status)
            && after.endedAt == (if p.status.Some? then Some(now) else was.endedAt)
            && after.winner ==
               if p.status == Some(CANCELLED) then None else if p.winner.Some? then p.winner.value else was.winner
  {
  }

  /** Completing a round with a winner records that team of the event and the time, whatever the round held before. */
  lemma CompletionRecordsWinner(s: Match, i: nat, team: Id, now: int)
    requires Valid(s)
    ensures var r := Step(s, UpdateRound(i, RoundPatch(Some(COMPLETED), Some(Some(team))), now));
            && (r.Ok? <==>
                  && i < |s.rounds| && s.rounds[i].status == ACTIVE
                  && team in s.teams && s.teams[team] == s.rounds[i].eventId)
            && (r.Ok? ==>
                  var was := s.rounds[i];
                  r.value.rounds[i] == Round(was.eventId, was.number, COMPLETED, was.startedAt, Some(now), Some(team)))
  {
    var p := RoundPatch(Some(COMPLETED), Some(Some(team)));
    PatchGoesThrough(s, i, p, now);
    if Step(s, UpdateRound(i, p, now)).Ok? {
      PatchWrites(s, i, p, now);
    }
  }

  /** An elimination of rostered operators is stored with its round, victim and killer, once per round and victim. */
  lemma RecordExactly(s: Match, newId: Id, round: nat, victim: Id, killer: Option<Id>)
    requires Valid(s)
    ensures var r := Step(s, RecordElimination(newId, round, victim, killer));
            && (r.Ok? <==>
                  && round < |s.rounds| && s.rounds[round].status == ACTIVE
                  && (victim, s.rounds[round].eventId) in s.roster
                  && (killer.Some? ==> (killer.value, s.rounds[round].eventId) in s.roster && killer.value != victim)
                  && forall x :: x in s.eliminations ==> x.round != round || x.victim != victim)
            && (r.Ok? ==>
                  r.value == s.(eliminations := s.eliminations + [Elimination(newId, round, victim, killer)]))
  {
    if round < |s.rounds| {
      assert DiedIn(s, victim, round) <==> exists x :: x in s.eliminations && x.round == round && x.victim == victim;
    }
  }

  /** Taking an elimination back removes that row and no other. */
  lemma DeleteExactly(s: Match, id: Id) returns (i: nat)
    ensures var r := Step(s, DeleteElimination(id));
            && (r.Ok? <==> exists x :: x in s.eliminations && x.id == id)
            && (r.Ok? ==>
                  && i < |s.eliminations| && s.eliminations[i].id == id
                  && r.value == s.(eliminations := s.eliminations[..i] + s.eliminations[i + 1..]))
  {
    i := PlaceOf(s.eliminations, id);
  }

  /** Teams come to events that have not ended, and go, with their wins, while the event is DRAFT. */
  lemma TeamsExactly(s: Match, team: Id, e: Id)
    requires Valid(s)
    ensures var r := Step(s, AddTeam(team, e));
            && (r.Ok? <==> e in s.events && s.events[e].status != ENDED && team !in s.teams)
            && (r.Ok? ==> r.value == s.(teams := s.teams[team := e]))
    ensures var r := Step(s, RemoveTeam(team));
            && (r.Ok? <==> team in s.teams && s.events[s.teams[team]].status == DRAFT)
            && (r.Ok? ==> r.value.teams == s.teams - {team} && r.value.events == s.events && Unwins(s, r.value, {team}))
  {
  }

  /** Rounds won by one of these teams have no winner now; all else in rounds, rosters and eliminations is as before. */
  predicate Unwins(s: Match, t: Match, gone: set<Id>) {
    && |t.rounds| == |s.rounds| && t.roster == s.roster && t.eliminations == s.eliminations
    && forall i :: 0 <= i < |s.rounds| ==>
      var was := s.rounds[i];
      t.rounds[i] == if was.winner.Some? && was.winner.value in gone then was.(winner := None) else was
  }

  lemma EventsExactly(s: Match, e: Id, competitive: bool)
    requires Valid(s)
    ensures Step(s, CreateEvent(e, competitive)) ==
            if e in s.events then Err(IdTaken) else Ok(s.(events := s.events[e := Event(competitive, DRAFT)]))
    ensures var r := Step(s, EditEvent(e, competitive));
            && (r.Ok? <==> e in s.events && s.events[e].status == DRAFT)
            && (r.Ok? ==> r.value == s.(events := s.events[e := Event(competitive, DRAFT)]))
    ensures var r := Step(s, ActivateEvent(e));
            && (r.Ok? <==> e in s.events && s.events[e].status == DRAFT)
            && (r.Ok? ==> r.value == s.(events := s.events[e := Event(s.events[e].competitive, ACTIVE_EVENT)]))
    ensures var r := Step(s, EndEvent(e));
            && (r.Ok? <==> e in s.events && s.events[e].status == ACTIVE_EVENT)
            && (r.Ok? ==> r.value == s.(events := s.events[e := Event(s.events[e].competitive, ENDED)]))
    ensures var r := Step(s, RemoveEvent(e));
            && (r.Ok? <==> e in s.events && s.events[e].status == DRAFT)
            && (r.Ok? ==>
                  && r.value.events == s.events - {e}
                  && r.value.teams == s.teams - (set t | t in s.teams && s.teams[t] == e)
                  && Unwins(s, r.value, set t | t in s.teams && s.teams[t] == e))
  {
  }
}
