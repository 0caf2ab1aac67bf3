/** Analytics: aggregate per operator first, then join. */
module Analytics {
  import opened Common
  import opened Lists
  import opened Joins
  import opened MissionEngine
  import opened EventTables

  /** One row of the operator_missions subquery. */
  datatype OmRow = OmRow(operatorId: Id, attempted: int, completed: int, points: int)

  /** One row of the operator_positions subquery. */
  datatype OpRow = OpRow(operatorId: Id, fixes: int)

  function OfEvent(db: Db, e: Id): Progress -> bool {
    (p: Progress) => MissionInEvent(db, e, p.missionId)
  }

  function ProgressOperator(): Progress -> Id {
    (p: Progress) => p.operatorId
  }

  function FixOperator(): Fix -> Id {
    (f: Fix) => f.operatorId
  }

  function EventProgress(db: Db, e: Id): seq<Progress> {
    Filter(db.progress, OfEvent(db, e))
  }

  function OmRowOf(db: Db, e: Id): Id -> OmRow {
    (op: Id) =>
      OmRow(op, GroupSum(EventProgress(db, e), ProgressOperator(), Attempted(), op),
            GroupSum(EventProgress(db, e), ProgressOperator(), Completed(), op),
            GroupSum(EventProgress(db, e), ProgressOperator(), Points(db), op))
  }

  function OperatorMissions(db: Db, e: Id): seq<OmRow> {
    Map(DistinctOf(Map(EventProgress(db, e), ProgressOperator())), OmRowOf(db, e))
  }

  function OfEventFix(e: Id): Fix -> bool {
    (f: Fix) => f.eventId == e
  }

  function OfEventAndOperator(e: Id, op: Id): Fix -> bool {
    (f: Fix) => f.eventId == e && f.operatorId == op
  }

  function OpRowOf(db: Db, e: Id): Id -> OpRow {
    (op: Id) => OpRow(op, |Filter(db.fixes, OfEventAndOperator(e, op))|)
  }

  function OperatorPositions(db: Db, e: Id): seq<OpRow> {
    Map(DistinctOf(Map(Filter(db.fixes, OfEventFix(e)), FixOperator())), OpRowOf(db, e))
  }

  type OmJoined = (SquadRow, Option<OmRow>)
  type Joined = (OmJoined, Option<OpRow>)

  function OnOm(): (SquadRow, OmRow) -> bool {
    (r: SquadRow, om: OmRow) => r.1.Some? && om.operatorId == r.1.value.operatorId
  }

  function OnOp(): (OmJoined, OpRow) -> bool {
    (r: OmJoined, op: OpRow) => r.0.1.Some? && op.operatorId == r.0.1.value.operatorId
  }

  function SquadRows(db: Db, e: Id, s: Squad): seq<Joined> {
    LeftJoin(LeftJoin(LeftJoin([s], db.members, OnSquad()), OperatorMissions(db, e), OnOm()), OperatorPositions(db, e),
        OnOp())
  }

  /** A column of om in a joined row; NULL adds nothing. */
  function OmColumn(column: OmRow -> int): OmJoined -> int {
    (r: OmJoined) => if r.1.Some? then column(r.1.value) else 0
  }

  function JoinedColumn(column: OmRow -> int): Joined -> int {
    (r: Joined) => OmColumn(column)(r.0)
  }

  /** SUM of a column of om over the group of a squad. */
  function SquadColumn(db: Db, e: Id, s: Squad, column: OmRow -> int): int {
    Sum(SquadRows(db, e, s), JoinedColumn(column))
  }

  function PointsColumn(): OmRow -> int {
    (om: OmRow) => om.points
  }

  function CompletedColumn(): OmRow -> int {
    (om: OmRow) => om.completed
  }

  function AttemptedColumn(): OmRow -> int {
    (om: OmRow) => om.attempted
  }

  function SquadView(db: Db, e: Id): seq<(Id, int)> {
    Map(Filter(db.squads, OfEventTeam(db, e)), (s: Squad) => (s.id, SquadColumn(db, e, s, PointsColumn())))
  }

  /** The column holds the operator's total of a metric. */
  ghost predicate Holds(db: Db, e: Id, column: OmRow -> int, w: Metric) {
    forall op: Id :: column(OmRowOf(db, e)(op)) == GroupSum(EventProgress(db, e), ProgressOperator(), w, op)
  }

  lemma GroupIsOperatorTotal(db: Db, e: Id, op: Id, w: Metric)
    ensures GroupSum(EventProgress(db, e), ProgressOperator(), w, op) == OperatorTotal(db, e, op, w)
  {
    GroupSumIs(EventProgress(db, e), ProgressOperator(), w, op);
    SumOfFilter(db.progress, OfEvent(db, e), InGroup(ProgressOperator(), op, w), OfOperator(db, e, op, w));
  }

  lemma NoProgressNoTotal(db: Db, e: Id, op: Id, w: Metric)
    requires op !in Map(EventProgress(db, e), ProgressOperator())
    ensures OperatorTotal(db, e, op, w) == 0
  {
    var ps := EventProgress(db, e);
    forall p | p in db.progress ensures OfOperator(db, e, op, w)(p) == 0 {
      if MissionInEvent(db, e, p.missionId) {
        assert p in ps;
        var i :| 0 <= i < |ps| && ps[i] == p;
        assert Map(ps, ProgressOperator())[i] == p.operatorId;
      }
    }
    SumOfZero(db.progress, OfOperator(db, e, op, w));
  }

  /** The one om row of an operator, or none, adds exactly the operator's total. */
  lemma OmOfMember(db: Db, e: Id, r: SquadRow, column: OmRow -> int, w: Metric)
    requires Holds(db, e, column, w)
    ensures Sum(OperatorMissions(db, e), Matching(r, OnOm(), OmColumn(column))) == OfMember(Worth(db, e, w))(r)
  {
    var keys := DistinctOf(Map(EventProgress(db, e), ProgressOperator()));
    var f := Matching(r, OnOm(), OmColumn(column));
    var g := (op: Id) => f(OmRowOf(db, e)(op));
    SumOfMap(keys, OmRowOf(db, e), f, g);
    if r.1.Some? {
      var op := r.1.value.operatorId;
      OneKeyCounts(keys, op, g);
      GroupIsOperatorTotal(db, e, op, w);
      if op !in keys {
        NoProgressNoTotal(db, e, op, w);
      }
    } else {
      SumOfZero(keys, g);
    }
  }

  lemma {:induction false} AtMostOneMatch<R(!new)>(keys: seq<Id>, op: Id, row: Id -> R, p: R -> bool)
    requires Distinct(keys) && forall k :: k in keys && p(row(k)) ==> k == op
    ensures |Filter(Map(keys, row), p)| <= 1
    ensures op !in keys ==> Filter(Map(keys, row), p) == []
  {
    if keys != [] {
      assert Map(keys, row)[1..] == Map(keys[1..], row);
      assert keys == [keys[0]] + keys[1..];
      AtMostOneMatch(keys[1..], op, row, p);
    }
  }

  lemma OnePositionsRow(db: Db, e: Id, r: OmJoined)
    ensures |Filter(OperatorPositions(db, e), Partner(OnOp(), r))| <= 1
  {
    var keys := DistinctOf(Map(Filter(db.fixes, OfEventFix(e)), FixOperator()));
    AtMostOneMatch(keys, if r.0.1.Some? then r.0.1.value.operatorId else 0, OpRowOf(db, e), Partner(OnOp(), r));
  }

  /** Aggregating first and joining afterwards gives the squad's total of the metric. */
  lemma SquadColumnIsTotal(db: Db, e: Id, s: Squad, column: OmRow -> int, w: Metric)
    requires Holds(db, e, column, w)
    ensures SquadColumn(db, e, s, column) == SquadTotal(db, e, s.id, w)
  {
    var members := LeftJoin([s], db.members, OnSquad());
    var withOm := LeftJoin(members, OperatorMissions(db, e), OnOm());
    forall r: OmJoined ensures |Filter(OperatorPositions(db, e), Partner(OnOp(), r))| <= 1 {
      OnePositionsRow(db, e, r);
    }
    LeftJoinOnKey(withOm, OperatorPositions(db, e), OnOp(), JoinedColumn(column), OmColumn(column));
    forall r: SquadRow ensures Sum(OperatorMissions(db, e), Matching(r, OnOm(), OmColumn(column))) ==
        OfMember(Worth(db, e, w))(r) {
      OmOfMember(db, e, r, column, w);
    }
    SumOfLeftJoin(members, OperatorMissions(db, e), OnOm(), OmColumn(column), OfMember(Worth(db, e, w)));
    SquadJoinTotal(db, e, s, w);
  }

  /** The columns of a squad's row are what its members won, completed and started in the event. */
  lemma SquadColumnsExactly(db: Db, e: Id, s: Squad)
    ensures SquadColumn(db, e, s, PointsColumn()) == OverMembers(db, s.id, Won(db, e))
    ensures SquadColumn(db, e, s, CompletedColumn()) == OverMembers(db, s.id, Completing(db, e))
    ensures SquadColumn(db, e, s, AttemptedColumn()) == OverMembers(db, s.id, Attempting(db, e))
  {
    SquadColumnIsTotal(db, e, s, PointsColumn(), Points(db));
    SquadColumnIsTotal(db, e, s, CompletedColumn(), Completed());
    SquadColumnIsTotal(db, e, s, AttemptedColumn(), Attempted());
    forall op: Id
      ensures Won(db, e)(op) == OperatorTotal(db, e, op, Points(db))
      ensures Completing(db, e)(op) == OperatorTotal(db, e, op, Completed())
      ensures Attempting(db, e)(op) == OperatorTotal(db, e, op, Attempted())
    {
      TotalsAreOfColumns(db, e, op);
    }
    SquadTotalIsOverMembers(db, e, s.id, Points(db), Won(db, e));
    SquadTotalIsOverMembers(db, e, s.id, Completed(), Completing(db, e));
    SquadTotalIsOverMembers(db, e, s.id, Attempted(), Attempting(db, e));
  }

  // ---------- Position fixes ----------

  function SentBy(e: Id, op: Id): Fix -> bool {
    (f: Fix) => f.operatorId == op && f.eventId == e
  }

  /** How many positions of the event the operator sent. */
  function FixCount(db: Db, e: Id): Id -> int {
    (op: Id) => |Filter(db.fixes, SentBy(e, op))|
  }

  function FixesColumn(): Joined -> int {
    (r: Joined) => if r.1.Some? then r.1.value.fixes else 0
  }

  /** COALESCE(SUM(op.fixes), 0) over the group of a squad. */
  function SquadFixes(db: Db, e: Id, s: Squad): int {
    Sum(SquadRows(db, e, s), FixesColumn())
  }

  /** The rows of the positions subquery: one for whoever sent a position of the event, with how many. */
  lemma OperatorPositionsExactly(db: Db, e: Id, row: OpRow)
    ensures row in OperatorPositions(db, e) <==>
            HasFix(db, e, row.operatorId) && row.fixes == FixCount(db, e)(row.operatorId)
  {
    var op := row.operatorId;
    var ops := DistinctOf(Map(Filter(db.fixes, OfEventFix(e)), FixOperator()));
    FixesOfRow(db, e, op);
    SenderExactly(db, e, op);
    if row in OperatorPositions(db, e) {
      var i :| 0 <= i < |ops| && OpRowOf(db, e)(ops[i]) == row;
      assert ops[i] in ops;
    }
    if HasFix(db, e, op) && row.fixes == FixCount(db, e)(op) {
      var i :| 0 <= i < |ops| && ops[i] == op;
      assert OperatorPositions(db, e)[i] == OpRowOf(db, e)(op) == row;
    }
  }

  lemma FixesOfRow(db: Db, e: Id, op: Id)
    ensures OpRowOf(db, e)(op).fixes == FixCount(db, e)(op)
  {
    FilterSame(db.fixes, OfEventAndOperator(e, op), SentBy(e, op));
  }

  lemma SenderExactly(db: Db, e: Id, op: Id)
    ensures op in Map(Filter(db.fixes, OfEventFix(e)), FixOperator()) <==> HasFix(db, e, op)
  {
    var rows := Filter(db.fixes, OfEventFix(e));
    if op in Map(rows, FixOperator()) {
      var i :| 0 <= i < |rows| && Map(rows, FixOperator())[i] == op;
      assert rows[i] in rows;
    }
    if f :| f in db.fixes && f.operatorId == op && f.eventId == e {
      assert f in rows;
      var i :| 0 <= i < |rows| && rows[i] == f;
      assert Map(rows, FixOperator())[i] == op;
    }
  }

  /** The one positions row of a member, or none, adds exactly the positions they sent. */
  lemma FixesOfMember(db: Db, e: Id, r: OmJoined)
    ensures Sum(OperatorPositions(db, e), Matching(r, OnOp(), FixesColumn())) == OfMember(FixCount(db, e))(r.0)
  {
    var ops := DistinctOf(Map(Filter(db.fixes, OfEventFix(e)), FixOperator()));
    var f := Matching(r, OnOp(), FixesColumn());
    var g := (op: Id) => f(OpRowOf(db, e)(op));
    SumOfMap(ops, OpRowOf(db, e), f, g);
    if r.0.1.Some? {
      var op := r.0.1.value.operatorId;
      OneKeyCounts(ops, op, g);
      FixesOfRow(db, e, op);
      SenderExactly(db, e, op);
      if op !in ops {
        FilterNone(db.fixes, SentBy(e, op));
      }
    } else {
      SumOfZero(ops, g);
    }
  }

  lemma OneMissionsRow(db: Db, e: Id, r: SquadRow)
    ensures |Filter(OperatorMissions(db, e), Partner(OnOm(), r))| <= 1
  {
    var ops := DistinctOf(Map(EventProgress(db, e), ProgressOperator()));
    AtMostOneMatch(ops, if r.1.Some? then r.1.value.operatorId else 0, OmRowOf(db, e), Partner(OnOm(), r));
  }

  /** A squad's position fixes are those its members sent in the event, none counted twice through the other join. */
  lemma SquadFixesExactly(db: Db, e: Id, s: Squad)
    ensures SquadFixes(db, e, s) == OverMembers(db, s.id, FixCount(db, e))
  {
    var members := LeftJoin([s], db.members, OnSquad());
    var withOm := LeftJoin(members, OperatorMissions(db, e), OnOm());
    var sent := OfMember(FixCount(db, e));
    var onRow := (r: OmJoined) => sent(r.0);
    forall r: OmJoined ensures Sum(OperatorPositions(db, e), Matching(r, OnOp(), FixesColumn())) == onRow(r) {
      FixesOfMember(db, e, r);
    }
    SumOfLeftJoin(withOm, OperatorPositions(db, e), OnOp(), FixesColumn(), onRow);
    forall r: SquadRow ensures |Filter(OperatorMissions(db, e), Partner(OnOm(), r))| <= 1 {
      OneMissionsRow(db, e, r);
    }
    LeftJoinOnKey(members, OperatorMissions(db, e), OnOm(), onRow, sent);
    SquadJoinOver(db, s, FixCount(db, e));
  }

  lemma SquadJoinOver(db: Db, s: Squad, x: Id -> int)
    ensures Sum(LeftJoin([s], db.members, OnSquad()), OfMember(x)) == OverMembers(db, s.id, x)
  {
    var g := (s: Squad) => Sum(db.members, Matching(s, OnSquad(), OfMember(x)));
    SumOfLeftJoin([s], db.members, OnSquad(), OfMember(x), g);
    SumOfFilter(db.members, InSquad(s.id), OfItsOperator(x), Matching(s, OnSquad(), OfMember(x)));
  }

  /** The rows of the subquery: one for whoever has progress in the event, with what they started, completed and won. */
  lemma OperatorMissionsExactly(db: Db, e: Id, om: OmRow)
    ensures om in OperatorMissions(db, e) <==>
            HasProgress(db, e, om.operatorId) &&
            om == OmRow(om.operatorId, Attempts(db, e, om.operatorId), Completions(db, e, om.operatorId),
                        PointsWon(db, e, om.operatorId))
  {
    var op := om.operatorId;
    var ops := DistinctOf(Map(EventProgress(db, e), ProgressOperator()));
    TotalsAreOfColumns(db, e, op);
    GroupIsOperatorTotal(db, e, op, Attempted());
    GroupIsOperatorTotal(db, e, op, Completed());
    GroupIsOperatorTotal(db, e, op, Points(db));
    InEventProgress(db, e, op);
    if om in OperatorMissions(db, e) {
      var i :| 0 <= i < |ops| && OmRowOf(db, e)(ops[i]) == om;
      assert ops[i] in ops;
    }
    if HasProgress(db, e, op) {
      var i :| 0 <= i < |ops| && ops[i] == op;
      assert OperatorMissions(db, e)[i] == OmRowOf(db, e)(op);
    }
  }

  lemma InEventProgress(db: Db, e: Id, op: Id)
    ensures op in Map(EventProgress(db, e), ProgressOperator()) <==> HasProgress(db, e, op)
  {
    var rows := EventProgress(db, e);
    if op in Map(rows, ProgressOperator()) {
      var i :| 0 <= i < |rows| && Map(rows, ProgressOperator())[i] == op;
      assert rows[i] in rows;
    }
    if HasProgress(db, e, op) {
      var p :| p in db.progress && p.operatorId == op && p.missionId in db.missions &&
        db.missions[p.missionId].eventId == e;
      assert p in rows;
      var i :| 0 <= i < |rows| && rows[i] == p;
      assert Map(rows, ProgressOperator())[i] == op;
    }
  }

  // ---------- Operators ----------

  /** Whoever sent a position or has progress in the event. */
  function EventOperators(db: Db, e: Id): seq<Id> {
    var fixes := Map(Filter(db.fixes, OfEventFix(e)), FixOperator());
    Filter(DistinctOf(fixes + Map(EventProgress(db, e), ProgressOperator())), (op: Id) => op in db.operators)
  }

  type OperatorRow = (Id, Option<Member>)

  function OfMemberOperator(): (Id, Member) -> bool {
    (op: Id, m: Member) => m.operatorId == op
  }

  function KeyOf(db: Db, e: Id): OperatorRow -> OperatorKey {
    (r: OperatorRow) => MemberKey(db, e, r.0, r.1)
  }

  function OperatorRows(db: Db, e: Id): seq<OperatorRow> {
    Filter(LeftJoin(EventOperators(db, e), db.members, OfMemberOperator()), (r: OperatorRow) => IsKept(KeyOf(db, e)(r)))
  }

  function OperatorKeys(db: Db, e: Id): seq<OperatorKey> {
    Map(OperatorRows(db, e), KeyOf(db, e))
  }

  /** COALESCE(om.points, 0) of an operator's row. */
  function OperatorPoints(db: Db, e: Id, op: Id): int {
    if op in Map(EventProgress(db, e), ProgressOperator()) then OmRowOf(db, e)(op).points else 0
  }

  lemma OperatorPointsAreWon(db: Db, e: Id, op: Id)
    ensures OperatorPoints(db, e, op) == PointsWon(db, e, op)
  {
    TotalsAreOfColumns(db, e, op);
    if op in Map(EventProgress(db, e), ProgressOperator()) {
      GroupIsOperatorTotal(db, e, op, Points(db));
    } else {
      NoProgressNoTotal(db, e, op, Points(db));
    }
  }

  lemma TakesPartExactlyWhen(db: Db, e: Id, op: Id)
    ensures op in EventOperators(db, e) <==> op in db.operators && (HasFix(db, e, op) || HasProgress(db, e, op))
  {
    InEventProgress(db, e, op);
    SenderExactly(db, e, op);
  }

  /**
   * The rows of the analytics: whoever sent a position or has progress in the
   * event, under each squad of the event they are in, or under none if they are
   * in no squad at all.
   */
  lemma KeysExactly(db: Db, e: Id, k: OperatorKey)
    requires Constraints(db)
    ensures k in OperatorKeys(db, e) <==>
            && k.operatorId in db.operators
            && (HasFix(db, e, k.operatorId) || HasProgress(db, e, k.operatorId))
            && Shown(db, e, k)
  {
    TakesPartExactlyWhen(db, e, k.operatorId);
    RowsShow(db, e, k);
    KeyHasMember(db, e, k);
  }

  lemma KeyHasMember(db: Db, e: Id, k: OperatorKey)
    ensures k in OperatorKeys(db, e) <==>
            exists m: Option<Member> :: IsRow(db, k.operatorId, m) && k.operatorId in EventOperators(db, e)
                                        && MemberKey(db, e, k.operatorId, m) == k && IsKept(k)
  {
    var rows := OperatorRows(db, e);
    if k in OperatorKeys(db, e) {
      var i :| 0 <= i < |rows| && OperatorKeys(db, e)[i] == k;
      var r := rows[i];
      assert r in rows;
      RowsOfLeftJoin(EventOperators(db, e), db.members, OfMemberOperator(), r);
      RowIsRow(db, r);
      assert IsRow(db, k.operatorId, r.1);
    }
    if m: Option<Member> :| IsRow(db, k.operatorId, m) && k.operatorId in EventOperators(db, e)
                            && MemberKey(db, e, k.operatorId, m) == k && IsKept(k) {
      var r: OperatorRow := (k.operatorId, m);
      RowsOfLeftJoin(EventOperators(db, e), db.members, OfMemberOperator(), r);
      assert r in rows;
      var i :| 0 <= i < |rows| && rows[i] == r;
      assert OperatorKeys(db, e)[i] == k;
    }
  }

  lemma RowIsRow(db: Db, r: OperatorRow)
    requires if r.1.Some? then r.1.value in db.members && OfMemberOperator()(r.0, r.1.value)
             else forall m :: m in db.members ==> !OfMemberOperator()(r.0, m)
    ensures IsRow(db, r.0, r.1)
  {
    if r.1.None? {
      forall m | m in db.members ensures m.operatorId != r.0 {
        assert !OfMemberOperator()(r.0, m);
      }
    }
  }

  // ---------- Efficiency ----------

  function EfficiencyOf(completed: int, attempted: int): real {
    if attempted <= 0 then 0.0
    else
      var raw := completed as real / attempted as real;
      if raw < 0.0 then 0.0 else if raw > 1.0 then 1.0 else raw
  }

  /** Whenever no more is completed than attempted, the clamp does nothing. */
  lemma ClampIsIdle(completed: int, attempted: int)
    requires 0 <= completed <= attempted
    ensures attempted > 0 ==> EfficiencyOf(completed, attempted) == completed as real / attempted as real
    ensures attempted > 0 ==> EfficiencyOf(completed, attempted) * attempted as real == completed as real
  {
  }

  lemma {:induction false} CompletedAtMostAttempted<T>(s: seq<T>, c: T -> int, a: T -> int)
    requires forall x :: x in s ==> 0 <= c(x) <= a(x)
    ensures 0 <= Sum(s, c) <= Sum(s, a)
  {
    if s != [] {
      CompletedAtMostAttempted(s[1..], c, a);
    }
  }

  lemma TotalCompletedAtMostAttempted(db: Db, e: Id, op: Id)
    ensures 0 <= OperatorTotal(db, e, op, Completed()) <= OperatorTotal(db, e, op, Attempted())
  {
    CompletedAtMostAttempted(db.progress, OfOperator(db, e, op, Completed()), OfOperator(db, e, op, Attempted()));
  }

  /** The columns of the subquery: whoever the row is of, completed is at most attempted. */
  lemma OperatorCompletedAtMostAttempted(db: Db, e: Id, op: Id)
    ensures 0 <= OmRowOf(db, e)(op).completed <= OmRowOf(db, e)(op).attempted
    ensures forall om :: om in OperatorMissions(db, e) ==> 0 <= om.completed <= om.attempted
  {
    forall o: Id ensures 0 <= OmRowOf(db, e)(o).completed <= OmRowOf(db, e)(o).attempted {
      TotalCompletedAtMostAttempted(db, e, o);
      GroupIsOperatorTotal(db, e, o, Completed());
      GroupIsOperatorTotal(db, e, o, Attempted());
    }
  }

  /** A member of a squad who attempted something. */
  predicate Active(db: Db, e: Id, squadId: Id, m: Member) {
    m in db.members && m.squadId == squadId && Attempts(db, e, m.operatorId) > 0
  }

  function MemberEfficiency(db: Db, e: Id, m: Member): real {
    EfficiencyOf(Completions(db, e, m.operatorId), Attempts(db, e, m.operatorId))
  }

  function SquadEfficiency(db: Db, e: Id, s: Squad): real {
    EfficiencyOf(SquadColumn(db, e, s, CompletedColumn()), SquadColumn(db, e, s, AttemptedColumn()))
  }

  /** By how much a row's ratio c/a exceeds C/A, times a and A. */
  function Excess<T>(c: T -> int, a: T -> int, wholeC: int, wholeA: int): T -> int {
    x => c(x) * wholeA - wholeC * a(x)
  }

  lemma Distribute(x: int, y: int, k: int)
    ensures (x + y) * k == x * k + y * k && k * (x + y) == k * x + k * y
  {
  }

  lemma {:induction false} SumOfExcess<T>(s: seq<T>, c: T -> int, a: T -> int, wholeC: int, wholeA: int)
    ensures Sum(s, Excess(c, a, wholeC, wholeA)) == Sum(s, c) * wholeA - wholeC * Sum(s, a)
  {
    if s != [] {
      SumOfExcess(s[1..], c, a, wholeC, wholeA);
      Distribute(c(s[0]), Sum(s[1..], c), wholeA);
      Distribute(a(s[0]), Sum(s[1..], a), wholeC);
    }
  }

  /** If excesses do not sum below zero, some row that attempted anything is not below zero. */
  lemma {:induction false} SomeoneNotBelow<T(!new)>(s: seq<T>, a: T -> int, g: T -> int) returns (x: T)
    requires forall y :: y in s ==> 0 <= a(y) && (a(y) == 0 ==> g(y) == 0)
    requires Sum(s, a) > 0 && Sum(s, g) >= 0
    ensures x in s && a(x) > 0 && g(x) >= 0
  {
    assert s[0] in s;
    if a(s[0]) > 0 && g(s[0]) >= 0 {
      x := s[0];
    } else {
      if Sum(s[1..], a) <= 0 {
        NothingAttempted(s[1..], a, g);
        assert false;
      }
      x := SomeoneNotBelow(s[1..], a, g);
    }
  }

  lemma {:induction false} NothingAttempted<T(!new)>(s: seq<T>, a: T -> int, g: T -> int)
    requires forall y :: y in s ==> 0 <= a(y) && (a(y) == 0 ==> g(y) == 0)
    ensures Sum(s, a) >= 0
    ensures Sum(s, a) == 0 ==> Sum(s, g) == 0
  {
    if s != [] {
      assert s[0] in s;
      NothingAttempted(s[1..], a, g);
    }
  }

  /** Comparing two ratios by cross-multiplication. */
  lemma CrossMultiply(c: int, a: int, wholeC: int, wholeA: int)
    requires a > 0 && wholeA > 0 && c * wholeA >= wholeC * a
    ensures c as real / a as real >= wholeC as real / wholeA as real
  {
    var p, q := c as real / a as real, wholeC as real / wholeA as real;
    assert p * a as real == c as real && q * wholeA as real == wholeC as real;
    assert (c * wholeA) as real == c as real * wholeA as real == p * (a as real * wholeA as real);
    assert (wholeC * a) as real == wholeC as real * a as real == q * (a as real * wholeA as real);
    assert a as real * wholeA as real > 0.0;
    if p < q {
      LessTimes(p, q, a as real * wholeA as real);
    }
  }

  lemma LessTimes(p: real, q: real, k: real)
    requires p < q && k > 0.0
    ensures p * k < q * k
  {
  }

  /**
   * A squad never completes more than it attempts, and if it attempted
   * anything its efficiency lies between those of two of its active members.
   */
  lemma SquadEfficiencyIsBetween(db: Db, e: Id, s: Squad) returns (low: Member, high: Member)
    requires SquadColumn(db, e, s, AttemptedColumn()) > 0
    ensures 0 <= SquadColumn(db, e, s, CompletedColumn()) <= SquadColumn(db, e, s, AttemptedColumn())
    ensures Active(db, e, s.id, low) && Active(db, e, s.id, high)
    ensures MemberEfficiency(db, e, low) <= SquadEfficiency(db, e, s) <= MemberEfficiency(db, e, high)
  {
    var c, a := OfSquad(db, e, s.id, Completed()), OfSquad(db, e, s.id, Attempted());
    SquadColumnIsTotal(db, e, s, CompletedColumn(), Completed());
    SquadColumnIsTotal(db, e, s, AttemptedColumn(), Attempted());
    forall m | m in db.members ensures 0 <= c(m) <= a(m) {
      TotalCompletedAtMostAttempted(db, e, m.operatorId);
    }
    CompletedAtMostAttempted(db.members, c, a);
    var wc, wa := Sum(db.members, c), Sum(db.members, a);
    ClampIsIdle(wc, wa);
    var over, under := Excess(c, a, wc, wa), (m: Member) => -Excess(c, a, wc, wa)(m);
    SumOfExcess(db.members, c, a, wc, wa);
    SumOfSum(db.members, over, under, (m: Member) => 0);
    SumOfZero(db.members, (m: Member) => 0);
    high := SomeoneNotBelow(db.members, a, over);
    low := SomeoneNotBelow(db.members, a, under);
    TotalsAreOfColumns(db, e, high.operatorId);
    TotalsAreOfColumns(db, e, low.operatorId);
    ClampIsIdle(c(high), a(high));
    ClampIsIdle(c(low), a(low));
    CrossMultiply(c(high), a(high), wc, wa);
    CrossMultiply(wc, wa, c(low), a(low));
  }
}
