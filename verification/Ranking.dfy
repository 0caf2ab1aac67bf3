/** Ranking: join everything, then aggregate. Rows are as before ORDER BY and LIMIT. */
module Ranking {
  import opened Common
  import opened Lists
  import opened Joins
  import opened MissionEngine
  import opened EventTables

  // ---------- Squads ----------

  function OnCompleted(): (SquadRow, Progress) -> bool {
    (r: SquadRow, p: Progress) => r.1.Some? && p.operatorId == r.1.value.operatorId && p.state == COMPLETED
  }

  /** m.points_reward of a joined row; NULL adds nothing. */
  function RowPoints<A>(db: Db, e: Id): ((A, Option<Progress>)) -> int {
    (r: (A, Option<Progress>)) => if r.1.Some? && MissionInEvent(db, e, r.1.value.missionId) then
        db.missions[r.1.value.missionId].points else 0
  }

  function SquadPoints(db: Db, e: Id, s: Squad): int {
    Sum(LeftJoin(LeftJoin([s], db.members, OnSquad()), db.progress, OnCompleted()), RowPoints(db, e))
  }

  /** The squad ranking: one group per squad of the event. */
  function SquadRanking(db: Db, e: Id): seq<(Id, int)> {
    Map(Filter(db.squads, OfEventTeam(db, e)), (s: Squad) => (s.id, SquadPoints(db, e, s)))
  }

  lemma CompletedOfMember(db: Db, e: Id, r: SquadRow)
    ensures Sum(db.progress, Matching(r, OnCompleted(), RowPoints(db, e))) == OfMember(Worth(db, e, Points(db)))(r)
  {
    if r.1.Some? {
      SumSame(db.progress, Matching(r, OnCompleted(), RowPoints(db, e)),
          OfOperator(db, e, r.1.value.operatorId, Points(db)));
    } else {
      SumOfZero(db.progress, Matching(r, OnCompleted(), RowPoints(db, e)));
    }
  }

  lemma SquadPointsAreTotals(db: Db, e: Id, s: Squad)
    ensures SquadPoints(db, e, s) == SquadTotal(db, e, s.id, Points(db))
  {
    var rows := LeftJoin([s], db.members, OnSquad());
    forall r: SquadRow ensures Sum(db.progress, Matching(r, OnCompleted(), RowPoints(db, e))) ==
        OfMember(Worth(db, e, Points(db)))(r) {
      CompletedOfMember(db, e, r);
    }
    SumOfLeftJoin(rows, db.progress, OnCompleted(), RowPoints(db, e), OfMember(Worth(db, e, Points(db))));
    SquadJoinTotal(db, e, s, Points(db));
  }

  /** A squad's points are what its members won in the event. */
  lemma SquadPointsAreWon(db: Db, e: Id, s: Squad)
    ensures SquadPoints(db, e, s) == OverMembers(db, s.id, Won(db, e))
  {
    SquadPointsAreTotals(db, e, s);
    forall op: Id ensures Won(db, e)(op) == OperatorTotal(db, e, op, Points(db)) {
      TotalsAreOfColumns(db, e, op);
    }
    SquadTotalIsOverMembers(db, e, s.id, Points(db), Won(db, e));
  }

  /** The squad ranking has exactly the squads of the event's teams, each with what its members won. */
  lemma SquadRankingExactly(db: Db, e: Id, id: Id, points: int)
    ensures (id, points) in SquadRanking(db, e) <==> SquadScores(db, e, id, points)
  {
    var rows := Filter(db.squads, OfEventTeam(db, e));
    if (id, points) in SquadRanking(db, e) {
      var i :| 0 <= i < |rows| && SquadRanking(db, e)[i] == (id, points);
      assert rows[i] in rows;
      SquadPointsAreWon(db, e, rows[i]);
    }
    if SquadScores(db, e, id, points) {
      var s :| s in db.squads && s.id == id && s.teamId in db.teams && db.teams[s.teamId] == e;
      assert s in rows;
      var i :| 0 <= i < |rows| && rows[i] == s;
      SquadPointsAreWon(db, e, s);
      assert SquadRanking(db, e)[i] == (id, points);
    }
  }

  // ---------- Teams ----------

  type TeamSquad = (Id, Option<Squad>)
  type TeamMember = (TeamSquad, Option<Member>)

  function OnTeam(): (Id, Squad) -> bool {
    (t: Id, s: Squad) => s.teamId == t
  }

  function OnTeamSquad(): (TeamSquad, Member) -> bool {
    (r: TeamSquad, m: Member) => r.1.Some? && m.squadId == r.1.value.id
  }

  function OnTeamMember(): (TeamMember, Progress) -> bool {
    (r: TeamMember, p: Progress) => r.1.Some? && p.operatorId == r.1.value.operatorId && p.state == COMPLETED
  }

  function TeamPoints(db: Db, e: Id, teamId: Id): int {
    var members := LeftJoin(LeftJoin([teamId], db.squads, OnTeam()), db.members, OnTeamSquad());
    Sum(LeftJoin(members, db.progress, OnTeamMember()), RowPoints(db, e))
  }

  function MemberWorth(db: Db, e: Id): TeamMember -> int {
    (r: TeamMember) => if r.1.Some? then OperatorTotal(db, e, r.1.value.operatorId, Points(db)) else 0
  }

  function SquadWorth(db: Db, e: Id): TeamSquad -> int {
    (r: TeamSquad) => if r.1.Some? then SquadTotal(db, e, r.1.value.id, Points(db)) else 0
  }

  /** The points of a team's squads, as the squad ranking shows them. */
  function OfTeam(db: Db, e: Id, teamId: Id): Squad -> int {
    (s: Squad) => if s.teamId == teamId then SquadPoints(db, e, s) else 0
  }

  lemma CompletedOfTeamMember(db: Db, e: Id, r: TeamMember)
    ensures Sum(db.progress, Matching(r, OnTeamMember(), RowPoints(db, e))) == MemberWorth(db, e)(r)
  {
    if r.1.Some? {
      SumSame(db.progress, Matching(r, OnTeamMember(), RowPoints(db, e)),
          OfOperator(db, e, r.1.value.operatorId, Points(db)));
    } else {
      SumOfZero(db.progress, Matching(r, OnTeamMember(), RowPoints(db, e)));
    }
  }

  lemma MembersOfTeamSquad(db: Db, e: Id, r: TeamSquad)
    ensures Sum(db.members, Matching(r, OnTeamSquad(), MemberWorth(db, e))) == SquadWorth(db, e)(r)
  {
    if r.1.Some? {
      SumSame(db.members, Matching(r, OnTeamSquad(), MemberWorth(db, e)), OfSquad(db, e, r.1.value.id, Points(db)));
    } else {
      SumOfZero(db.members, Matching(r, OnTeamSquad(), MemberWorth(db, e)));
    }
  }

  /** A team's points are the sum of its squads' points. */
  lemma TeamIsSumOfSquads(db: Db, e: Id, teamId: Id)
    ensures TeamPoints(db, e, teamId) == Sum(db.squads, OfTeam(db, e, teamId))
  {
    var squads := LeftJoin([teamId], db.squads, OnTeam());
    var members := LeftJoin(squads, db.members, OnTeamSquad());
    forall r: TeamMember ensures Sum(db.progress, Matching(r, OnTeamMember(), RowPoints(db, e))) ==
        MemberWorth(db, e)(r) {
      CompletedOfTeamMember(db, e, r);
    }
    SumOfLeftJoin(members, db.progress, OnTeamMember(), RowPoints(db, e), MemberWorth(db, e));
    forall r: TeamSquad ensures Sum(db.members, Matching(r, OnTeamSquad(), MemberWorth(db, e))) ==
        SquadWorth(db, e)(r) {
      MembersOfTeamSquad(db, e, r);
    }
    SumOfLeftJoin(squads, db.members, OnTeamSquad(), MemberWorth(db, e), SquadWorth(db, e));
    var g := (t: Id) => Sum(db.squads, Matching(t, OnTeam(), SquadWorth(db, e)));
    SumOfLeftJoin([teamId], db.squads, OnTeam(), SquadWorth(db, e), g);
    forall s | s in db.squads ensures Matching(teamId, OnTeam(), SquadWorth(db, e))(s) == OfTeam(db, e, teamId)(s) {
      SquadPointsAreTotals(db, e, s);
    }
    SumSame(db.squads, Matching(teamId, OnTeam(), SquadWorth(db, e)), OfTeam(db, e, teamId));
  }

  function OfTeamSquad(teamId: Id): Squad -> bool {
    (s: Squad) => s.teamId == teamId
  }

  function SquadWon(db: Db, e: Id): Squad -> int {
    (s: Squad) => OverMembers(db, s.id, Won(db, e))
  }

  /** A team's points are what the members of its squads won in the event. */
  lemma TeamPointsAreWon(db: Db, e: Id, teamId: Id)
    ensures TeamPoints(db, e, teamId) == Sum(Filter(db.squads, OfTeamSquad(teamId)), SquadWon(db, e))
  {
    TeamIsSumOfSquads(db, e, teamId);
    forall s | s in db.squads
      ensures OfTeam(db, e, teamId)(s) == if OfTeamSquad(teamId)(s) then SquadWon(db, e)(s) else 0
    {
      SquadPointsAreWon(db, e, s);
    }
    SumOfFilter(db.squads, OfTeamSquad(teamId), SquadWon(db, e), OfTeam(db, e, teamId));
  }

  // ---------- Operators ----------

  type OperatorRow = (Progress, Option<Member>)

  function Scores(db: Db, e: Id): Progress -> bool {
    (p: Progress) => p.state == COMPLETED && MissionInEvent(db, e, p.missionId) && p.operatorId in db.operators
  }

  function OnOperator(): (Progress, Member) -> bool {
    (p: Progress, m: Member) => m.operatorId == p.operatorId
  }

  function KeyOf(db: Db, e: Id): OperatorRow -> OperatorKey {
    (r: OperatorRow) => MemberKey(db, e, r.0.operatorId, r.1)
  }

  function Kept(db: Db, e: Id): OperatorRow -> bool {
    (r: OperatorRow) => IsKept(KeyOf(db, e)(r))
  }

  function OperatorRows(db: Db, e: Id): seq<OperatorRow> {
    Filter(LeftJoin(Filter(db.progress, Scores(db, e)), db.members, OnOperator()), Kept(db, e))
  }

  function OperatorRowPoints(db: Db): OperatorRow -> int {
    (r: OperatorRow) => Points(db)(r.0)
  }

  /** The groups of the operator ranking. */
  function OperatorKeys(db: Db, e: Id): seq<OperatorKey> {
    DistinctOf(Map(OperatorRows(db, e), KeyOf(db, e)))
  }

  function OperatorPoints(db: Db, e: Id, k: OperatorKey): int {
    GroupSum(OperatorRows(db, e), KeyOf(db, e), OperatorRowPoints(db), k)
  }

  /** The points the operator ranking shows under a team. */
  function CarryingTeam(db: Db, e: Id, teamId: Id): OperatorKey -> int {
    (k: OperatorKey) => if k.teamId == Some(teamId) then OperatorPoints(db, e, k) else 0
  }

  function PointsIfTeam(db: Db, e: Id, teamId: Id): OperatorRow -> int {
    (r: OperatorRow) => if KeyOf(db, e)(r).teamId == Some(teamId) then Points(db)(r.0) else 0
  }

  function GroupCell(db: Db, e: Id, teamId: Id): (OperatorKey, OperatorRow) -> int {
    (k: OperatorKey, r: OperatorRow) => if KeyOf(db, e)(r) == k && k.teamId == Some(teamId) then Points(db)(r.0) else 0
  }

  /** What one progress row adds to the group of a key. */
  function PointsOfKey(db: Db, e: Id, k: OperatorKey): OperatorRow -> int {
    (r: OperatorRow) => if IsKept(k) && KeyOf(db, e)(r) == k then Points(db)(r.0) else 0
  }

  /** A membership table keeps each pair of squad and operator once. */
  predicate MembersUnique(db: Db) {
    Distinct(db.members)
  }

  lemma OneRowOfKey(db: Db, e: Id, k: OperatorKey, p: Progress)
    requires Constraints(db) && MembersUnique(db) && k in OperatorKeys(db, e)
    ensures var f := PointsOfKey(db, e, k); var own := if p.operatorId == k.operatorId then Points(db)(p) else 0;
            own == if Filter(db.members, Partner(OnOperator(), p)) == [] then f((p, None))
                   else Sum(db.members, Matching(p, OnOperator(), f))
  {
    var f := PointsOfKey(db, e, k);
    var r := KeyHasRow(db, e, k);
    var mine := Filter(db.members, Partner(OnOperator(), p));
    if p.operatorId != k.operatorId {
      SumOfZero(db.members, Matching(p, OnOperator(), f));
    } else if r.1.None? {
      FilterNone(db.members, Partner(OnOperator(), p));
    } else {
      var member := r.1.value;
      assert member in mine;
      FoundIsRow(db.squads, member.squadId);
      forall m | m in db.members && m != member ensures Matching(p, OnOperator(), f)(m) == 0 {
        if m.operatorId == p.operatorId {
          FoundIsRow(db.squads, m.squadId);
          assert m.squadId != member.squadId;
        }
      }
      assert Matching(p, OnOperator(), f)(member) == Points(db)(p);
      OneKeyCounts(db.members, member, Matching(p, OnOperator(), f));
    }
  }

  /** The points of an operator's row, through the join with memberships, are what the operator won in the event. */
  lemma OperatorRowIsTotal(db: Db, e: Id, k: OperatorKey)
    requires Constraints(db) && MembersUnique(db) && k in OperatorKeys(db, e)
    ensures OperatorPoints(db, e, k) == PointsWon(db, e, k.operatorId)
  {
    TotalsAreOfColumns(db, e, k.operatorId);
    var scoring := Filter(db.progress, Scores(db, e));
    var joined := LeftJoin(scoring, db.members, OnOperator());
    var f := PointsOfKey(db, e, k);
    var own := (p: Progress) => if p.operatorId == k.operatorId then Points(db)(p) else 0;
    var r := KeyHasRow(db, e, k);
    GroupSumIs(OperatorRows(db, e), KeyOf(db, e), OperatorRowPoints(db), k);
    SumSame(OperatorRows(db, e), InGroup(KeyOf(db, e), k, OperatorRowPoints(db)), f);
    SumOfFilter(joined, Kept(db, e), f, f);
    forall p | p in scoring
      ensures own(p) == if Filter(db.members, Partner(OnOperator(), p)) == [] then f((p, None))
                        else Sum(db.members, Matching(p, OnOperator(), f))
    {
      OneRowOfKey(db, e, k, p);
    }
    SumOfLeftJoinRows(scoring, db.members, OnOperator(), f, own);
    SumOfFilter(db.progress, Scores(db, e), own, OfOperator(db, e, k.operatorId, Points(db)));
  }

  /** Summing the groups of a team is summing the joined rows of the team. */
  lemma GroupsOfTeam(db: Db, e: Id, teamId: Id)
    ensures Sum(OperatorKeys(db, e), CarryingTeam(db, e, teamId)) ==
        Sum(OperatorRows(db, e), PointsIfTeam(db, e, teamId))
  {
    var rows, keys, h := OperatorRows(db, e), OperatorKeys(db, e), GroupCell(db, e, teamId);
    forall k | k in keys ensures CarryingTeam(db, e, teamId)(k) == RowSum(rows, h)(k) {
      GroupSumIs(rows, KeyOf(db, e), OperatorRowPoints(db), k);
      if k.teamId == Some(teamId) {
        SumSame(rows, InRow(h, k), InGroup(KeyOf(db, e), k, OperatorRowPoints(db)));
      } else {
        SumOfZero(rows, InRow(h, k));
      }
    }
    SumSame(keys, CarryingTeam(db, e, teamId), RowSum(rows, h));
    SumSwap(keys, rows, h);
    forall r | r in rows ensures ColumnSum(keys, h)(r) == PointsIfTeam(db, e, teamId)(r) {
      var i :| 0 <= i < |rows| && rows[i] == r;
      assert Map(rows, KeyOf(db, e))[i] == KeyOf(db, e)(r);
      OneKeyCounts(keys, KeyOf(db, e)(r), InColumn(h, r));
    }
    SumSame(rows, ColumnSum(keys, h), PointsIfTeam(db, e, teamId));
  }

  /** A membership of the team, crossed with a scoring row of the same operator. */
  function Cell(db: Db, e: Id, teamId: Id): (Progress, Member) -> int {
    (p: Progress, m: Member) => if m.operatorId == p.operatorId && Scores(db, e)(p) && PlaysFor(db, teamId, m) then
        Points(db)(p) else 0
  }

  predicate PlaysFor(db: Db, teamId: Id, m: Member) {
    SquadOf(db.squads, m.squadId).Some? && SquadOf(db.squads, m.squadId).value.teamId == teamId
  }

  lemma CellOfRow(db: Db, e: Id, teamId: Id, p: Progress, m: Member)
    requires TeamInEvent(db, e, teamId) && Scores(db, e)(p)
    ensures Cell(db, e, teamId)(p, m) == Matching(p, OnOperator(), PointsIfTeam(db, e, teamId))(m)
    ensures PointsIfTeam(db, e, teamId)((p, None)) == 0
  {
    var r: OperatorRow := (p, Some(m));
    assert KeyOf(db, e)(r).teamId == Some(teamId) <==> PlaysFor(db, teamId, m);
    assert KeyOf(db, e)((p, None)).teamId == None;
  }

  lemma RowsOfTeam(db: Db, e: Id, teamId: Id)
    requires TeamInEvent(db, e, teamId)
    ensures Sum(OperatorRows(db, e), PointsIfTeam(db, e, teamId)) ==
        Sum(db.progress, RowSum(db.members, Cell(db, e, teamId)))
  {
    var scoring := Filter(db.progress, Scores(db, e));
    var joined := LeftJoin(scoring, db.members, OnOperator());
    var f, h := PointsIfTeam(db, e, teamId), Cell(db, e, teamId);
    forall r | r in joined ensures f(r) == if Kept(db, e)(r) then f(r) else 0 {
      assert KeyOf(db, e)(r).teamId == Some(teamId) ==> IsKept(KeyOf(db, e)(r));
    }
    SumOfFilter(joined, Kept(db, e), f, f);
    forall p | p in scoring ensures RowSum(db.members, h)(p) == Sum(db.members, Matching(p, OnOperator(), f)) {
      forall m | m in db.members ensures InRow(h, p)(m) == Matching(p, OnOperator(), f)(m) {
        CellOfRow(db, e, teamId, p, m);
      }
      SumSame(db.members, InRow(h, p), Matching(p, OnOperator(), f));
    }
    forall p | p in scoring ensures f((p, None)) == 0 {
      assert KeyOf(db, e)((p, None)).teamId == None;
    }
    SumOfLeftJoin(scoring, db.members, OnOperator(), f, RowSum(db.members, h));
    forall p | p in db.progress && !Scores(db, e)(p) ensures RowSum(db.members, h)(p) == 0 {
      SumOfZero(db.members, InRow(h, p));
    }
    SumOfFilter(db.progress, Scores(db, e), RowSum(db.members, h), RowSum(db.members, h));
  }

  function MemberCell(db: Db, e: Id, teamId: Id): (Member, Squad) -> int {
    (m: Member, s: Squad) => if s.teamId == teamId && m.squadId == s.id then
        OperatorTotal(db, e, m.operatorId, Points(db)) else 0
  }

  lemma {:induction false} OneSquadMatches(squads: seq<Squad>, id: Id, f: Squad -> int)
    requires Distinct(Map(squads, SquadId()))
    requires forall s :: s in squads && s.id != id ==> f(s) == 0
    ensures Sum(squads, f) == if SquadOf(squads, id).Some? then f(SquadOf(squads, id).value) else 0
  {
    if squads != [] {
      var ids := Map(squads, SquadId());
      assert Map(squads[1..], SquadId()) == ids[1..];
      if squads[0].id == id {
        forall s | s in squads[1..] ensures f(s) == 0 {
          var i :| 0 <= i < |squads[1..]| && squads[1..][i] == s;
          assert ids[i + 1] == s.id && ids[0] == id;
        }
        SumOfZero(squads[1..], f);
      } else {
        OneSquadMatches(squads[1..], id, f);
      }
    }
  }

  lemma MembersOfTeam(db: Db, e: Id, teamId: Id)
    requires Constraints(db)
    ensures Sum(db.squads, OfTeam(db, e, teamId)) == Sum(db.members, ColumnSum(db.progress, Cell(db, e, teamId)))
  {
    var h := MemberCell(db, e, teamId);
    forall s | s in db.squads ensures OfTeam(db, e, teamId)(s) == ColumnSum(db.members, h)(s) {
      SquadPointsAreTotals(db, e, s);
      if s.teamId == teamId {
        SumSame(db.members, InColumn(h, s), OfSquad(db, e, s.id, Points(db)));
      } else {
        SumOfZero(db.members, InColumn(h, s));
      }
    }
    SumSame(db.squads, OfTeam(db, e, teamId), ColumnSum(db.members, h));
    SumSwap(db.members, db.squads, h);
    forall m | m in db.members ensures RowSum(db.squads, h)(m) == ColumnSum(db.progress, Cell(db, e, teamId))(m) {
      OneSquadMatches(db.squads, m.squadId, InRow(h, m));
      if PlaysFor(db, teamId, m) {
        FoundIsRow(db.squads, m.squadId);
        SumSame(db.progress, InColumn(Cell(db, e, teamId), m), OfOperator(db, e, m.operatorId, Points(db)));
      } else {
        SumOfZero(db.progress, InColumn(Cell(db, e, teamId), m));
      }
    }
    SumSame(db.members, RowSum(db.squads, h), ColumnSum(db.progress, Cell(db, e, teamId)));
  }

  /**
   * The three views add up: a team's points are the sum of the operator rows
   * that carry that team.
   */
  lemma TeamIsSumOfOperators(db: Db, e: Id, teamId: Id)
    requires Constraints(db) && TeamInEvent(db, e, teamId)
    ensures TeamPoints(db, e, teamId) == Sum(OperatorKeys(db, e), CarryingTeam(db, e, teamId))
  {
    TeamIsSumOfSquads(db, e, teamId);
    MembersOfTeam(db, e, teamId);
    SumSwap(db.progress, db.members, Cell(db, e, teamId));
    RowsOfTeam(db, e, teamId);
    GroupsOfTeam(db, e, teamId);
  }

  // ---------- Who is listed ----------

  /** Squads service: an operator has at most one membership in the squads of an event. */
  predicate OneSquadPerEvent(db: Db, e: Id) {
    forall m, n :: m in db.members && n in db.members && m.operatorId == n.operatorId && InEventSquad(db, e, m) &&
        InEventSquad(db, e, n)
      ==> m.squadId == n.squadId
  }

  predicate InEventSquad(db: Db, e: Id, m: Member) {
    SquadOf(db.squads, m.squadId).Some? && TeamInEvent(db, e, SquadOf(db.squads, m.squadId).value.teamId)
  }

  lemma KeyHasRow(db: Db, e: Id, k: OperatorKey) returns (r: OperatorRow)
    requires k in OperatorKeys(db, e)
    ensures r in OperatorRows(db, e) && KeyOf(db, e)(r) == k
    ensures Scores(db, e)(r.0) && r.0 in db.progress && Kept(db, e)(r)
    ensures if r.1.Some? then r.1.value in db.members && r.1.value.operatorId == r.0.operatorId
            else forall m :: m in db.members ==> m.operatorId != r.0.operatorId
  {
    var rows := OperatorRows(db, e);
    var i :| 0 <= i < |rows| && Map(rows, KeyOf(db, e))[i] == k;
    r := rows[i];
    RowsOfLeftJoin(Filter(db.progress, Scores(db, e)), db.members, OnOperator(), r);
    if r.1.None? {
      forall m | m in db.members ensures m.operatorId != r.0.operatorId {
        assert !OnOperator()(r.0, m);
      }
    }
  }

  /** Under one squad per event, no operator has two rows. */
  lemma OneRowPerOperator(db: Db, e: Id, j: OperatorKey, k: OperatorKey)
    requires Constraints(db) && OneSquadPerEvent(db, e)
    requires j in OperatorKeys(db, e) && k in OperatorKeys(db, e) && j.operatorId == k.operatorId
    ensures j == k
  {
    var r := KeyHasRow(db, e, j);
    var s := KeyHasRow(db, e, k);
    if r.1.Some? {
      assert InEventSquad(db, e, r.1.value) && InEventSquad(db, e, s.1.value);
    }
  }

  /**
   * The rows of the operator ranking: whoever completed a mission of the event,
   * under each squad of the event they are in, or under none if they are in no
   * squad at all.
   */
  lemma KeysExactly(db: Db, e: Id, k: OperatorKey)
    requires Constraints(db)
    ensures k in OperatorKeys(db, e) <==> Scored(db, e, k.operatorId) && Shown(db, e, k)
  {
    RowsShow(db, e, k);
    if k in OperatorKeys(db, e) {
      var r := KeyHasRow(db, e, k);
      assert IsRow(db, k.operatorId, r.1);
    }
    if Scored(db, e, k.operatorId) {
      var p :| p in db.progress && p.operatorId == k.operatorId && p.state == COMPLETED && p.missionId in db.missions &&
        db.missions[p.missionId].eventId == e;
      if m: Option<Member> :| IsRow(db, k.operatorId, m) && MemberKey(db, e, k.operatorId, m) == k && IsKept(k) {
        RowGivesKey(db, e, (p, m));
      }
    }
  }

  /**
   * An operator is listed exactly when they completed a mission of the event
   * and either are in no squad at all or are in a squad of this event. An
   * operator whose only squads belong to other events is left out.
   */
  lemma ListedExactlyWhen(db: Db, e: Id, op: Id)
    requires Constraints(db)
    ensures (exists k :: k in OperatorKeys(db, e) && k.operatorId == op) <==>
            Scored(db, e, op) && (InNoSquad(db, op) || exists s :: PlaysIn(db, e, op, s))
  {
    if k :| k in OperatorKeys(db, e) && k.operatorId == op {
      KeysExactly(db, e, k);
    }
    if Scored(db, e, op) {
      if s :| PlaysIn(db, e, op, s) {
        KeysExactly(db, e, OperatorKey(op, Some(s.id), Some(s.teamId)));
      } else if InNoSquad(db, op) {
        KeysExactly(db, e, OperatorKey(op, None, None));
      }
    }
  }

  /** Operator 7 completed mission 5 of event 1 and plays only in squad 200, of a team of event 2. */
  function OtherEventsPlayer(): Db {
    Db(map[20 := 2], [Squad(200, 20)], [Member(200, 7)], map[5 := MissionRow(1, 10)], [Progress(5, 7, COMPLETED)], {7},
       [])
  }

  lemma OtherEventsPlayerWins()
    ensures PointsWon(OtherEventsPlayer(), 1, 7) == 10
  {
    var db := OtherEventsPlayer();
    var p := db.progress[0];
    assert 5 in db.missions && WonBy(db, 1, 7)(p) == 10;
    assert db.progress[1..] == [];
  }

  lemma OtherEventsPlayerIsConstrained()
    ensures Constraints(OtherEventsPlayer()) && OneSquadPerEvent(OtherEventsPlayer(), 1)
  {
    var db := OtherEventsPlayer();
    assert Map(db.squads, SquadId()) == [200];
    assert SquadOf(db.squads, 200) == Some(Squad(200, 20));
  }

  /** The ranking of event 1 leaves operator 7 out, who has points in it. */
  lemma PlayerOfAnotherEventIsLeftOut()
    ensures var db := OtherEventsPlayer();
            && Constraints(db) && OneSquadPerEvent(db, 1) && PointsWon(db, 1, 7) == 10
            && forall k :: k in OperatorKeys(db, 1) ==> k.operatorId != 7
  {
    var db := OtherEventsPlayer();
    OtherEventsPlayerWins();
    OtherEventsPlayerIsConstrained();
    ListedExactlyWhen(db, 1, 7);
    assert Member(200, 7) in db.members;
    assert forall s :: !PlaysIn(db, 1, 7, s);
  }

  lemma RowGivesKey(db: Db, e: Id, r: OperatorRow)
    requires r.0 in db.progress && Scores(db, e)(r.0)
    requires if r.1.Some? then r.1.value in db.members && r.1.value.operatorId == r.0.operatorId &&
        InEventSquad(db, e, r.1.value)
             else forall m :: m in db.members ==> m.operatorId != r.0.operatorId
    ensures KeyOf(db, e)(r) in OperatorKeys(db, e) && KeyOf(db, e)(r).operatorId == r.0.operatorId
  {
    RowsOfLeftJoin(Filter(db.progress, Scores(db, e)), db.members, OnOperator(), r);
    if r.1.Some? {
      assert KeyOf(db, e)(r).teamId.Some?;
    } else {
      assert KeyOf(db, e)(r).squadId.None?;
    }
    var rows := OperatorRows(db, e);
    assert r in rows;
    var i :| 0 <= i < |rows| && rows[i] == r;
    assert Map(rows, KeyOf(db, e))[i] == KeyOf(db, e)(r);
  }
}
