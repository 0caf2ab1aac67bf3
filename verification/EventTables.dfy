/** The tables that ranking and analytics aggregate. */
module EventTables {
  import opened Common
  import opened Lists
  import opened Joins
  import opened MissionEngine

  datatype Squad = Squad(id: Id, teamId: Id)

  datatype Member = Member(squadId: Id, operatorId: Id)

  datatype MissionRow = MissionRow(eventId: Id, points: int)

  datatype Progress = Progress(missionId: Id, operatorId: Id, state: ProgressState)

  datatype Fix = Fix(operatorId: Id, eventId: Id)

  /** A join onto a primary key is a lookup: teams, missions and operators are keyed by it. */
  datatype Db = Db(
    teams: map<Id, Id>, // teamId to eventId
    squads: seq<Squad>,
    members: seq<Member>,
    missions: map<Id, MissionRow>,
    progress: seq<Progress>,
    operators: set<Id>,
    fixes: seq<Fix>)

  function SquadId(): Squad -> Id {
    (s: Squad) => s.id
  }

  /** Unique squad ids, and the foreign keys of members and progress. */
  predicate Constraints(db: Db) {
    && Distinct(Map(db.squads, SquadId()))
    && (forall m :: m in db.members ==> SquadOf(db.squads, m.squadId).Some?)
    && (forall p :: p in db.progress ==> p.operatorId in db.operators)
  }

  function SquadOf(squads: seq<Squad>, id: Id): Option<Squad> {
    if squads == [] then None else if squads[0].id == id then Some(squads[0]) else SquadOf(squads[1..], id)
  }

  predicate TeamInEvent(db: Db, e: Id, teamId: Id) {
    teamId in db.teams && db.teams[teamId] == e
  }

  /** JOIN teams t ON t.id = s.team_id AND t.event_id = e. */
  function OfEventTeam(db: Db, e: Id): Squad -> bool {
    (s: Squad) => TeamInEvent(db, e, s.teamId)
  }

  predicate MissionInEvent(db: Db, e: Id, missionId: Id) {
    missionId in db.missions && db.missions[missionId].eventId == e
  }

  /** The squad and team columns of an operator's row, for one of the operator's memberships or none. */
  datatype OperatorKey = OperatorKey(operatorId: Id, squadId: Option<Id>, teamId: Option<Id>)

  function MemberKey(db: Db, e: Id, op: Id, m: Option<Member>): OperatorKey {
    var squad := if m.None? then None else SquadOf(db.squads, m.value.squadId);
    var team := if squad.Some? && TeamInEvent(db, e, squad.value.teamId) then Some(squad.value.teamId) else None;
    OperatorKey(op, if squad.Some? then Some(squad.value.id) else None, team)
  }

  /** What the left join of operators with memberships pairs an operator with. */
  predicate IsRow(db: Db, op: Id, m: Option<Member>) {
    if m.Some? then m.value in db.members && m.value.operatorId == op
    else forall x :: x in db.members ==> x.operatorId != op
  }

  /** s.id IS NULL OR t.id IS NOT NULL. */
  predicate IsKept(k: OperatorKey) {
    k.squadId.None? || k.teamId.Some?
  }

  // ---------- What an operator and a squad add up to ----------

  /** A column of mission_progress that is summed: points, completed or attempted. */
  type Metric = Progress -> int

  function Points(db: Db): Metric {
    (p: Progress) => if p.state == COMPLETED && p.missionId in db.missions then db.missions[p.missionId].points else 0
  }

  function Completed(): Metric {
    (p: Progress) => if p.state == COMPLETED then 1 else 0
  }

  function Attempted(): Metric {
    (p: Progress) => if p.state != NOT_STARTED then 1 else 0
  }

  function OfOperator(db: Db, e: Id, op: Id, w: Metric): Progress -> int {
    (p: Progress) => if p.operatorId == op && MissionInEvent(db, e, p.missionId) then w(p) else 0
  }

  function OperatorTotal(db: Db, e: Id, op: Id, w: Metric): int {
    Sum(db.progress, OfOperator(db, e, op, w))
  }

  function OfSquad(db: Db, e: Id, squadId: Id, w: Metric): Member -> int {
    (m: Member) => if m.squadId == squadId then OperatorTotal(db, e, m.operatorId, w) else 0
  }

  function SquadTotal(db: Db, e: Id, squadId: Id, w: Metric): int {
    Sum(db.members, OfSquad(db, e, squadId, w))
  }

  // ---------- The numbers on the raw columns ----------

  /** What a progress row is worth to an operator in an event. */
  function WonBy(db: Db, e: Id, op: Id): Progress -> int {
    (p: Progress) =>
      if p.operatorId == op && p.state == COMPLETED && p.missionId in db.missions &&
         db.missions[p.missionId].eventId == e
      then db.missions[p.missionId].points else 0
  }

  /** The points of the missions of the event that the operator completed. */
  function PointsWon(db: Db, e: Id, op: Id): int {
    Sum(db.progress, WonBy(db, e, op))
  }

  function CompletedBy(db: Db, e: Id, op: Id): Progress -> bool {
    (p: Progress) => p.operatorId == op && p.state == COMPLETED && p.missionId in db.missions &&
      db.missions[p.missionId].eventId == e
  }

  /** How many missions of the event the operator completed. */
  function Completions(db: Db, e: Id, op: Id): nat {
    |Filter(db.progress, CompletedBy(db, e, op))|
  }

  function StartedBy(db: Db, e: Id, op: Id): Progress -> bool {
    (p: Progress) => p.operatorId == op && p.state in {IN_PROGRESS, COMPLETED, FAILED} && p.missionId in db.missions &&
      db.missions[p.missionId].eventId == e
  }

  /** How many missions of the event the operator started. */
  function Attempts(db: Db, e: Id, op: Id): nat {
    |Filter(db.progress, StartedBy(db, e, op))|
  }

  /** The operator completed a mission of the event. */
  predicate Scored(db: Db, e: Id, op: Id) {
    exists p :: p in db.progress && p.operatorId == op && p.state == COMPLETED && p.missionId in db.missions &&
      db.missions[p.missionId].eventId == e
  }

  /** The operator has a row of progress in the event. */
  predicate HasProgress(db: Db, e: Id, op: Id) {
    exists p :: p in db.progress && p.operatorId == op && p.missionId in db.missions &&
      db.missions[p.missionId].eventId == e
  }

  predicate HasFix(db: Db, e: Id, op: Id) {
    exists f :: f in db.fixes && f.operatorId == op && f.eventId == e
  }

  /** The operator is in the squad, and the squad's team is one of the event. */
  predicate PlaysIn(db: Db, e: Id, op: Id, squad: Squad) {
    && squad in db.squads && Member(squad.id, op) in db.members
    && squad.teamId in db.teams && db.teams[squad.teamId] == e
  }

  predicate InNoSquad(db: Db, op: Id) {
    forall m :: m in db.members ==> m.operatorId != op
  }

  /** The key shows a squad of the event that the operator is in, with its team, or none if there is no squad at all. */
  ghost predicate Shown(db: Db, e: Id, k: OperatorKey) {
    || (k.squadId.None? && k.teamId.None? && InNoSquad(db, k.operatorId))
    || exists s :: PlaysIn(db, e, k.operatorId, s) && k.squadId == Some(s.id) && k.teamId == Some(s.teamId)
  }

  function InSquad(squadId: Id): Member -> bool {
    (m: Member) => m.squadId == squadId
  }

  function OfItsOperator(x: Id -> int): Member -> int {
    (m: Member) => x(m.operatorId)
  }

  /** What the members of a squad add up to, each with a number of its own. */
  function OverMembers(db: Db, squadId: Id, x: Id -> int): int {
    Sum(Filter(db.members, InSquad(squadId)), OfItsOperator(x))
  }

  function Won(db: Db, e: Id): Id -> int {
    (op: Id) => PointsWon(db, e, op)
  }

  function Completing(db: Db, e: Id): Id -> int {
    (op: Id) => Completions(db, e, op)
  }

  function Attempting(db: Db, e: Id): Id -> int {
    (op: Id) => Attempts(db, e, op)
  }

  /** A squad of one of the event's teams, with what its members won in the event. */
  predicate SquadScores(db: Db, e: Id, id: Id, points: int) {
    && points == OverMembers(db, id, Won(db, e))
    && exists s :: s in db.squads && s.id == id && s.teamId in db.teams && db.teams[s.teamId] == e
  }

  lemma TotalsAreOfColumns(db: Db, e: Id, op: Id)
    ensures OperatorTotal(db, e, op, Points(db)) == PointsWon(db, e, op)
    ensures OperatorTotal(db, e, op, Completed()) == Completions(db, e, op)
    ensures OperatorTotal(db, e, op, Attempted()) == Attempts(db, e, op)
  {
    SumSame(db.progress, OfOperator(db, e, op, Points(db)), WonBy(db, e, op));
    CountIsSum(db.progress, CompletedBy(db, e, op), OfOperator(db, e, op, Completed()));
    CountIsSum(db.progress, StartedBy(db, e, op), OfOperator(db, e, op, Attempted()));
  }

  lemma SquadTotalIsOverMembers(db: Db, e: Id, squadId: Id, w: Metric, x: Id -> int)
    requires forall op: Id :: x(op) == OperatorTotal(db, e, op, w)
    ensures SquadTotal(db, e, squadId, w) == OverMembers(db, squadId, x)
  {
    SumOfFilter(db.members, InSquad(squadId), OfItsOperator(x), OfSquad(db, e, squadId, w));
  }

  /** What the joined tables pair an operator with, on the raw columns. */
  lemma RowsShow(db: Db, e: Id, k: OperatorKey)
    requires Constraints(db)
    ensures Shown(db, e, k) <==>
            exists m: Option<Member> ::
              IsRow(db, k.operatorId, m) && MemberKey(db, e, k.operatorId, m) == k && IsKept(k)
  {
    if m: Option<Member> :| IsRow(db, k.operatorId, m) && MemberKey(db, e, k.operatorId, m) == k && IsKept(k) {
      if m.Some? {
        FoundIsRow(db.squads, m.value.squadId);
        assert m.value == Member(m.value.squadId, k.operatorId);
        assert PlaysIn(db, e, k.operatorId, SquadOf(db.squads, m.value.squadId).value);
      }
    }
    if Shown(db, e, k) {
      if k.squadId.None? {
        assert IsRow(db, k.operatorId, None) && MemberKey(db, e, k.operatorId, None) == k;
      } else {
        var s :| PlaysIn(db, e, k.operatorId, s) && k.squadId == Some(s.id) && k.teamId == Some(s.teamId);
        SquadOfIsRow(db.squads, s);
        var m := Some(Member(s.id, k.operatorId));
        assert IsRow(db, k.operatorId, m) && MemberKey(db, e, k.operatorId, m) == k;
      }
    }
  }

  lemma {:induction false} FoundIsRow(squads: seq<Squad>, id: Id)
    requires SquadOf(squads, id).Some?
    ensures SquadOf(squads, id).value in squads && SquadOf(squads, id).value.id == id
  {
    if squads[0].id != id {
      FoundIsRow(squads[1..], id);
    }
  }

  lemma {:induction false} SquadOfIsRow(squads: seq<Squad>, q: Squad)
    requires Distinct(Map(squads, SquadId())) && q in squads
    ensures SquadOf(squads, q.id) == Some(q)
  {
    var ids := Map(squads, SquadId());
    assert Map(squads[1..], SquadId()) == ids[1..];
    if squads[0] != q {
      var i :| 0 <= i < |squads| && squads[i] == q;
      assert ids[0] != ids[i] && squads[1..][i - 1] == q;
      SquadOfIsRow(squads[1..], q);
    }
  }

  // ---------- Join conditions shared by the queries ----------

  type SquadRow = (Squad, Option<Member>)

  function OnSquad(): (Squad, Member) -> bool {
    (s: Squad, m: Member) => m.squadId == s.id
  }

  /** What a squad row contributes when its member is worth x. */
  function OfMember(x: Id -> int): SquadRow -> int {
    (r: SquadRow) => if r.1.Some? then x(r.1.value.operatorId) else 0
  }

  function Worth(db: Db, e: Id, w: Metric): Id -> int {
    (op: Id) => OperatorTotal(db, e, op, w)
  }

  /** Summing over the members of a squad through the join. */
  lemma SquadJoinTotal(db: Db, e: Id, s: Squad, w: Metric)
    ensures Sum(LeftJoin([s], db.members, OnSquad()), OfMember(Worth(db, e, w))) == SquadTotal(db, e, s.id, w)
  {
    var f := OfMember(Worth(db, e, w));
    var g := (s: Squad) => Sum(db.members, Matching(s, OnSquad(), f));
    SumOfLeftJoin([s], db.members, OnSquad(), f, g);
    SumSame(db.members, Matching(s, OnSquad(), f), OfSquad(db, e, s.id, w));
  }
}
