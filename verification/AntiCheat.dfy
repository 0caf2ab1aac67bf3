/**
 * Anti-cheat: three detectors on each stored position, suspicions, and the
 * reputation penalties they trigger. Distance is any function of two
 * points; times are milliseconds, speeds metres per second.
 */
module AntiCheat {
  import opened Common
  import opened Lists
  import opened MissionEngine
  import opened Positions

  const SPEED_MINOR_MPS := 60.0
  const SPEED_MAJOR_MPS := 120.0
  const SPEED_SEVERE_MPS := 250.0
  const JUMP_DELTA_M := 500.0
  const JUMP_DT_MAX_S := 5.0
  const GPS_BAD_ACCURACY_M := 100.0
  const GPS_CONSECUTIVE_BAD := 3
  const GPS_SPEED_DIVERGENCE_MPS := 50.0
  const REPUTATION_BASELINE := 100

  datatype Severity = MINOR | MAJOR | SEVERE

  datatype Detector = SPEED_IMPOSSIBLE | LOCATION_JUMP | GPS_INCONSISTENCY

  datatype Hit = Hit(detector: Detector, severity: Severity)

  datatype Suspicion = Suspicion(operatorId: Id, eventId: Id, hit: Hit, recordedAt: int)

  datatype Kind = PENALTY | COMMENDATION

  datatype LogEntry = LogEntry(operatorId: Id, delta: int, automatic: bool)

  type Distance = (Point, Point) -> real

  // ---------- Detectors ----------

  function Seconds(ms: int): real {
    ms as real / 1000.0
  }

  function DeltaM(dist: Distance, previous: HistoryRow, job: InspectJob): real {
    dist(previous.reading.at, job.at)
  }

  function DtSeconds(previous: HistoryRow, job: InspectJob): real {
    Seconds(job.recordedAt - previous.recordedAt)
  }

  function EvaluateSpeed(dist: Distance, previous: HistoryRow, job: InspectJob): Option<Hit> {
    var dt := DtSeconds(previous, job);
    if dt <= 0.0 then None
    else
      var speed := DeltaM(dist, previous, job) / dt;
      if speed > SPEED_SEVERE_MPS then Some(Hit(SPEED_IMPOSSIBLE, SEVERE))
      else if speed > SPEED_MAJOR_MPS then Some(Hit(SPEED_IMPOSSIBLE, MAJOR))
      else if speed > SPEED_MINOR_MPS then Some(Hit(SPEED_IMPOSSIBLE, MINOR))
      else None
  }

  function EvaluateJump(dist: Distance, previous: HistoryRow, job: InspectJob): Option<Hit> {
    var dt := DtSeconds(previous, job);
    if dt < 0.0 then None
    else if dt >= JUMP_DT_MAX_S then None
    else if DeltaM(dist, previous, job) <= JUMP_DELTA_M then None
    else Some(Hit(LOCATION_JUMP, MAJOR))
  }

  predicate IsBad(accuracyM: Option<real>) {
    accuracyM.Some? && accuracyM.value > GPS_BAD_ACCURACY_M
  }

  predicate AllBad(previous: seq<HistoryRow>, job: InspectJob) {
    && IsBad(job.accuracyM)
    && |previous| == GPS_CONSECUTIVE_BAD - 1
    && forall i :: 0 <= i < |previous| ==> IsBad(previous[i].reading.accuracyM)
  }

  function AbsReal(x: real): real {
    if x < 0.0 then -x else x
  }

  function EvaluateGps(dist: Distance, previous: seq<HistoryRow>, job: InspectJob): Option<Hit> {
    if AllBad(previous, job) then Some(Hit(GPS_INCONSISTENCY, MINOR))
    else if previous != [] && job.clientSpeedMps.Some? && DtSeconds(previous[0], job) > 0.0
         && AbsReal(job.clientSpeedMps.value - DeltaM(dist, previous[0], job) / DtSeconds(previous[0],
             job)) > GPS_SPEED_DIVERGENCE_MPS
    then Some(Hit(GPS_INCONSISTENCY, MINOR))
    else None
  }

  // ---------- The fixes an inspection compares with ----------

  predicate Earlier(job: InspectJob, r: HistoryRow) {
    r.operatorId == job.operatorId && r.eventId == job.eventId && r.recordedAt < job.recordedAt
  }

  function EarlierThan(job: InspectJob): HistoryRow -> bool {
    (r: HistoryRow) => Earlier(job, r)
  }

  function NewestFirst(): HistoryRow -> int {
    (r: HistoryRow) => -r.recordedAt
  }

  /** The two newest stored fixes before the job, newest first. */
  function PreviousFixes(history: seq<HistoryRow>, job: InspectJob): seq<HistoryRow> {
    var all := SortBy(Filter(history, EarlierThan(job)), NewestFirst());
    if |all| > GPS_CONSECUTIVE_BAD - 1 then all[..GPS_CONSECUTIVE_BAD - 1] else all
  }

  function Listed(hit: Option<Hit>): seq<Hit> {
    if hit.Some? then [hit.value] else []
  }

  /** All hits of one inspection, in the order they are pushed. */
  function Hits(dist: Distance, history: seq<HistoryRow>, job: InspectJob): seq<Hit> {
    var previous := PreviousFixes(history, job);
    (if previous == [] then []
     else Listed(EvaluateSpeed(dist, previous[0], job)) + Listed(EvaluateJump(dist, previous[0], job)))
    + Listed(EvaluateGps(dist, previous, job))
  }

  lemma PreviousAreEarlier(history: seq<HistoryRow>, job: InspectJob)
    ensures forall r :: r in PreviousFixes(history, job) ==> r in history && Earlier(job, r)
  {
    var found := Filter(history, EarlierThan(job));
    var all := SortBy(found, NewestFirst());
    SortBySorts(found, NewestFirst());
    forall r | r in PreviousFixes(history, job) ensures r in history && Earlier(job, r) {
      assert r in all;
      assert r in multiset(all);
      assert r in found && EarlierThan(job)(r);
    }
  }

  /** Newest first, and nothing that is left out is newer. */
  predicate NewestOf(p: seq<HistoryRow>, found: multiset<HistoryRow>) {
    && (forall i, j :: 0 <= i <= j < |p| ==> p[i].recordedAt >= p[j].recordedAt)
    && multiset(p) <= found
    && (forall r: HistoryRow, k :: r in found - multiset(p) && 0 <= k < |p| ==> r.recordedAt <= p[k].recordedAt)
  }

  lemma PrefixIsNewest(all: seq<HistoryRow>, n: nat)
    requires SortedBy(all, NewestFirst()) && n <= |all|
    ensures NewestOf(all[..n], multiset(all))
  {
    var p := all[..n];
    TakeSorted(all, n, NewestFirst());
    forall i, j | 0 <= i <= j < n ensures p[i].recordedAt >= p[j].recordedAt {
      assert NewestFirst()(all[i]) <= NewestFirst()(all[j]);
    }
    forall r: HistoryRow, k | r in multiset(all) - multiset(p) && 0 <= k < n ensures r.recordedAt <= p[k].recordedAt {
      assert NewestFirst()(all[k]) <= NewestFirst()(r);
    }
  }

  lemma PreviousOfFound(history: seq<HistoryRow>, job: InspectJob)
    ensures var p, found := PreviousFixes(history, job), Filter(history, EarlierThan(job));
            |p| == (if |found| < 2 then |found| else 2) && NewestOf(p, multiset(found))
  {
    var found := Filter(history, EarlierThan(job));
    var all := SortBy(found, NewestFirst());
    SortBySorts(found, NewestFirst());
    assert |multiset(all)| == |all| && |multiset(found)| == |found|;
    var n := if |all| < 2 then |all| else 2;
    PrefixIsNewest(all, n);
    assert PreviousFixes(history, job) == all[..n];
  }

  function OwnBefore(job: InspectJob): HistoryRow -> bool {
    (r: HistoryRow) =>
      r.operatorId == job.operatorId && r.eventId == job.eventId && r.recordedAt < job.recordedAt
  }

  lemma FoundAreOwn(history: seq<HistoryRow>, job: InspectJob)
    ensures Filter(history, EarlierThan(job)) == Filter(history, OwnBefore(job))
  {
    FilterSame(history, EarlierThan(job), OwnBefore(job));
  }

  /**
   * What the detectors compare with: two earlier fixes of the same operator and
   * event, or all if there are fewer, the newest first, and none of the other
   * earlier fixes is newer than any of them.
   */
  lemma PreviousAreNewest(history: seq<HistoryRow>, job: InspectJob)
    ensures var p, found := PreviousFixes(history, job), Filter(history, OwnBefore(job));
            |p| == (if |found| < 2 then |found| else 2) && NewestOf(p, multiset(found))
  {
    PreviousOfFound(history, job);
    FoundAreOwn(history, job);
  }

  // ---------- A jump is always also a speed ----------

  lemma Quotient(d: real, dt: real, k: real)
    requires dt > 0.0
    ensures d / dt > k <==> d > k * dt
  {
    assert (d / dt) * dt == d;
    if d / dt > k {
      assert (d / dt) * dt > k * dt;
    } else {
      assert (d / dt) * dt <= k * dt;
    }
  }

  /** The speed bands, without a division: metres against a limit times the milliseconds that passed. */
  lemma SpeedBands(dist: Distance, previous: HistoryRow, job: InspectJob)
    ensures var hit := EvaluateSpeed(dist, previous, job); var ms := (job.recordedAt - previous.recordedAt) as real;
            var mm := 1000.0 * dist(previous.reading.at, job.at);
            && (hit.None? <==> ms <= 0.0 || mm <= 60.0 * ms)
            && (hit == Some(Hit(SPEED_IMPOSSIBLE, MINOR)) <==> ms > 0.0 && 60.0 * ms < mm <= 120.0 * ms)
            && (hit == Some(Hit(SPEED_IMPOSSIBLE, MAJOR)) <==> ms > 0.0 && 120.0 * ms < mm <= 250.0 * ms)
            && (hit == Some(Hit(SPEED_IMPOSSIBLE, SEVERE)) <==> ms > 0.0 && 250.0 * ms < mm)
  {
    var d, dt := DeltaM(dist, previous, job), DtSeconds(previous, job);
    if dt > 0.0 {
      Quotient(d, dt, SPEED_MINOR_MPS);
      Quotient(d, dt, SPEED_MAJOR_MPS);
      Quotient(d, dt, SPEED_SEVERE_MPS);
    }
  }

  /** A jump is more than 500 metres in less than five seconds. */
  lemma JumpLimits(dist: Distance, previous: HistoryRow, job: InspectJob)
    ensures var hit := EvaluateJump(dist, previous, job); var ms := job.recordedAt - previous.recordedAt;
            hit == if 0 <= ms < 5000 && dist(previous.reading.at, job.at) > 500.0 then Some(Hit(LOCATION_JUMP, MAJOR))
                   else None
  {
  }

  predicate Worse(accuracyM: Option<real>) {
    accuracyM.Some? && accuracyM.value > 100.0
  }

  /** The reported speed is more than 50 m/s away from the one travelled, without a division. */
  predicate Diverges(dist: Distance, previous: HistoryRow, job: InspectJob) {
    var ms := (job.recordedAt - previous.recordedAt) as real;
    var mm := 1000.0 * dist(previous.reading.at, job.at);
    ms > 0.0 && job.clientSpeedMps.Some? &&
    (mm < (job.clientSpeedMps.value - 50.0) * ms || mm > (job.clientSpeedMps.value + 50.0) * ms)
  }

  lemma QuotientBelow(d: real, dt: real, k: real)
    requires dt > 0.0
    ensures d / dt < k <==> d < k * dt
  {
    var q := d / dt;
    assert q * dt == d;
    if q < k {
      Stretch(q, k, dt);
    } else if q > k {
      Stretch(k, q, dt);
    }
  }

  lemma Stretch(p: real, q: real, k: real)
    requires p < q && k > 0.0
    ensures p * k < q * k
  {
  }

  lemma Millis(k: real, ms: real)
    ensures 1000.0 * (k * (ms / 1000.0)) == k * ms
  {
    var s := ms / 1000.0;
    assert 1000.0 * s == ms;
    assert 1000.0 * (k * s) == k * (1000.0 * s);
  }

  lemma DivergesExactly(c: real, d: real, ms: real)
    requires ms > 0.0
    ensures AbsReal(c - d / (ms / 1000.0)) > 50.0 <==> 1000.0 * d < (c - 50.0) * ms || 1000.0 * d > (c + 50.0) * ms
  {
    var dt := ms / 1000.0;
    Quotient(d, dt, c + 50.0);
    QuotientBelow(d, dt, c - 50.0);
    Millis(c + 50.0, ms);
    Millis(c - 50.0, ms);
  }

  /** A GPS hit: three fixes in a row worse than 100 metres, or a reported speed that diverges. */
  lemma GpsLimits(dist: Distance, previous: seq<HistoryRow>, job: InspectJob)
    ensures EvaluateGps(dist, previous, job) ==
            if (Worse(job.accuracyM) && |previous| == 2 && Worse(previous[0].reading.accuracyM) &&
                Worse(previous[1].reading.accuracyM))
               || (previous != [] && Diverges(dist, previous[0], job))
            then Some(Hit(GPS_INCONSISTENCY, MINOR)) else None
  {
    assert AllBad(previous, job) <==>
      Worse(job.accuracyM) && |previous| == 2 && Worse(previous[0].reading.accuracyM) &&
      Worse(previous[1].reading.accuracyM);
    if previous != [] && job.clientSpeedMps.Some? && DtSeconds(previous[0], job) > 0.0 {
      DivergesExactly(job.clientSpeedMps.value, DeltaM(dist, previous[0], job),
          (job.recordedAt - previous[0].recordedAt) as real);
    }
  }

  /** What an inspection finds: each detector at most once, the first two against the newest earlier fix. */
  lemma HitsExactly(dist: Distance, history: seq<HistoryRow>, job: InspectJob, h: Hit)
    ensures var p := PreviousFixes(history, job);
            h in Hits(dist, history, job) <==>
              || (p != [] && Some(h) == EvaluateSpeed(dist, p[0], job))
              || (p != [] && Some(h) == EvaluateJump(dist, p[0], job))
              || Some(h) == EvaluateGps(dist, p, job)
  {
  }

  lemma JumpImpliesSpeed(dist: Distance, previous: HistoryRow, job: InspectJob)
    requires Earlier(job, previous) && EvaluateJump(dist, previous, job).Some?
    ensures EvaluateSpeed(dist, previous, job).Some?
  {
    SpeedBands(dist, previous, job);
    JumpLimits(dist, previous, job);
  }

  /** Every LOCATION_JUMP comes with a SPEED_IMPOSSIBLE in the same inspection. */
  lemma JumpComesWithSpeed(dist: Distance, history: seq<HistoryRow>, job: InspectJob)
    ensures (exists h :: h in Hits(dist, history, job) && h.detector == LOCATION_JUMP)
            ==> exists h :: h in Hits(dist, history, job) && h.detector == SPEED_IMPOSSIBLE
    ensures |Hits(dist, history, job)| <= 3
  {
    var previous := PreviousFixes(history, job);
    PreviousAreEarlier(history, job);
    if h :| h in Hits(dist, history, job) && h.detector == LOCATION_JUMP {
      assert previous != [] && previous[0] in previous;
      assert EvaluateJump(dist, previous[0], job).Some?;
      JumpImpliesSpeed(dist, previous[0], job);
      var speed := EvaluateSpeed(dist, previous[0], job).value;
      assert Hits(dist, history, job)[0] == speed && speed.detector == SPEED_IMPOSSIBLE;
    }
  }

  // ---------- Reputation ----------

  function Magnitude(s: Severity): int {
    match s
    case MINOR => 5
    case MAJOR => 15
    case SEVERE => 50
  }

  function ComputeDelta(kind: Kind, s: Severity): int {
    if kind == PENALTY then -Magnitude(s) else Magnitude(s)
  }

  /** MINOR suspicions do not touch the reputation. */
  function MapToReputation(s: Severity): Option<Severity> {
    if s == MINOR then None else Some(s)
  }

  /** The penalties of some hits; `written` says which writes succeed. */
  function Penalties(op: Id, hits: seq<Hit>, written: seq<bool>): seq<LogEntry>
    requires |written| == |hits|
  {
    if hits == [] then []
    else
      var n := |hits| - 1;
      var severity := MapToReputation(hits[n].severity);
      Penalties(op, hits[..n], written[..n])
      + if severity.Some? && written[n] then [LogEntry(op, ComputeDelta(PENALTY, severity.value), true)] else []
  }

  function Delta(op: Id): LogEntry -> int {
    (l: LogEntry) => if l.operatorId == op then l.delta else 0
  }

  /** baseline + sum of deltas. */
  function Score(log: seq<LogEntry>, op: Id): int {
    REPUTATION_BASELINE + Sum(log, Delta(op))
  }

  /** What a hit takes off when its penalty is written: nothing if it is MINOR, 15 if MAJOR, 50 if SEVERE. */
  function Cost(h: Hit, written: bool): int {
    if !written then 0 else if h.severity == SEVERE then 50 else if h.severity == MAJOR then 15 else 0
  }

  function TotalCost(hits: seq<Hit>, written: seq<bool>): int
    requires |written| == |hits|
  {
    if hits == [] then 0
    else TotalCost(hits[..|hits| - 1], written[..|hits| - 1]) + Cost(hits[|hits| - 1], written[|hits| - 1])
  }

  lemma {:induction false} PenaltiesCost(op: Id, hits: seq<Hit>, written: seq<bool>)
    requires |written| == |hits|
    ensures Sum(Penalties(op, hits, written), Delta(op)) == -TotalCost(hits, written)
    decreases |hits|
  {
    if hits != [] {
      var n := |hits| - 1;
      PenaltiesCost(op, hits[..n], written[..n]);
      var before := Penalties(op, hits[..n], written[..n]);
      var severity := MapToReputation(hits[n].severity);
      SumAppend(before, if severity.Some? && written[n] then
          [LogEntry(op, ComputeDelta(PENALTY, severity.value), true)] else [], Delta(op));
    }
  }

  predicate IsStep(cost: int) {
    cost == 0 || cost == 15 || cost == 30 || cost == 50 || cost == 65
  }

  lemma CostOfThree(a: Hit, b: Hit, c: Hit, written: seq<bool>)
    requires |written| == 3
    ensures TotalCost([a, b, c], written) == Cost(a, written[0]) + Cost(b, written[1]) + Cost(c, written[2])
  {
    assert [a, b, c][..2] == [a, b] && [a, b][..1] == [a] && [a][..0] == [];
    assert written[..2][..1] == written[..1];
    assert TotalCost([a], written[..1]) == Cost(a, written[0]);
  }

  lemma CostOfTwo(a: Hit, b: Hit, written: seq<bool>)
    requires |written| == 2
    ensures TotalCost([a, b], written) == Cost(a, written[0]) + Cost(b, written[1])
  {
    assert [a, b][..1] == [a] && [a][..0] == [];
    assert TotalCost([a], written[..1]) == Cost(a, written[0]);
  }

  lemma CostOfOne(a: Hit, written: seq<bool>)
    requires |written| == 1
    ensures TotalCost([a], written) == Cost(a, written[0])
  {
    assert [a][..0] == [];
  }

  /** At most one hit of each detector, in detector order; jumps are MAJOR and GPS hits MINOR. */
  predicate Shape(hits: seq<Hit>) {
    && |hits| <= 3
    && (forall i, j :: 0 <= i < j < |hits| ==> Rank(hits[i].detector) < Rank(hits[j].detector))
    && (forall i :: 0 <= i < |hits| ==>
         && (hits[i].detector == LOCATION_JUMP ==> hits[i].severity == MAJOR)
         && (hits[i].detector == GPS_INCONSISTENCY ==> hits[i].severity == MINOR))
  }

  function Rank(d: Detector): nat {
    match d
    case SPEED_IMPOSSIBLE => 0
    case LOCATION_JUMP => 1
    case GPS_INCONSISTENCY => 2
  }

  lemma ListedHaveShape(speed: Option<Hit>, jump: Option<Hit>, gps: Option<Hit>)
    requires speed.Some? ==> speed.value.detector == SPEED_IMPOSSIBLE
    requires jump.Some? ==> jump.value == Hit(LOCATION_JUMP, MAJOR)
    requires gps.Some? ==> gps.value == Hit(GPS_INCONSISTENCY, MINOR)
    ensures Shape(Listed(speed) + Listed(jump) + Listed(gps))
  {
  }

  lemma HitsHaveShape(dist: Distance, history: seq<HistoryRow>, job: InspectJob)
    ensures Shape(Hits(dist, history, job))
  {
    var previous := PreviousFixes(history, job);
    var gps := EvaluateGps(dist, previous, job);
    if previous == [] {
      ListedHaveShape(None, None, gps);
      assert Listed(None) + Listed(None) + Listed(gps) == [] + Listed(gps);
    } else {
      ListedHaveShape(EvaluateSpeed(dist, previous[0], job), EvaluateJump(dist, previous[0], job), gps);
    }
  }

  lemma ShapeCosts(hits: seq<Hit>, written: seq<bool>)
    requires Shape(hits) && |written| == |hits|
    ensures IsStep(TotalCost(hits, written))
  {
    if |hits| == 1 {
      assert hits == [hits[0]];
      CostOfOne(hits[0], written);
    } else if |hits| == 2 {
      assert hits == [hits[0], hits[1]];
      CostOfTwo(hits[0], hits[1], written);
    } else if |hits| == 3 {
      assert hits == [hits[0], hits[1], hits[2]];
      CostOfThree(hits[0], hits[1], hits[2], written);
    }
  }

  predicate AllStored(stored: seq<bool>) {
    forall i :: 0 <= i < |stored| ==> stored[i]
  }

  /** The entries of one inspection: a suspicion that is not stored aborts it before any penalty. */
  function Charged(op: Id, hits: seq<Hit>, stored: seq<bool>, written: seq<bool>): seq<LogEntry>
    requires |stored| == |written| == |hits|
  {
    if AllStored(stored) then Penalties(op, hits, written) else []
  }

  /**
   * One inspection lowers the score by what the hits cost whose penalties are
   * written, or by nothing if a suspicion is not stored: by 0, 15, 30, 50 or 65.
   */
  lemma InspectionLowersByStep(dist: Distance, history: seq<HistoryRow>, job: InspectJob, log: seq<LogEntry>,
                               stored: seq<bool>, written: seq<bool>)
    requires |stored| == |written| == |Hits(dist, history, job)|
    ensures var after := log + Charged(job.operatorId, Hits(dist, history, job), stored, written);
            var lost := Score(log, job.operatorId) - Score(after, job.operatorId);
            && IsStep(lost)
            && lost == if false in stored then 0 else TotalCost(Hits(dist, history, job), written)
  {
    if AllStored(stored) {
      PenaltiesLowerByStep(dist, history, job, log, written);
    } else {
      assert log + [] == log;
    }
  }

  lemma {:induction false} PenaltiesLowerByStep(dist: Distance, history: seq<HistoryRow>, job: InspectJob,
      log: seq<LogEntry>, written: seq<bool>)
    requires |written| == |Hits(dist, history, job)|
    ensures var after := log + Penalties(job.operatorId, Hits(dist, history, job), written);
            var lost := Score(log, job.operatorId) - Score(after, job.operatorId);
            IsStep(lost) && lost == TotalCost(Hits(dist, history, job), written)
  {
    var hits := Hits(dist, history, job);
    HitsHaveShape(dist, history, job);
    ShapeCosts(hits, written);
    PenaltiesCost(job.operatorId, hits, written);
    SumAppend(log, Penalties(job.operatorId, hits, written), Delta(job.operatorId));
  }

  // ---------- Runs ----------

  /** An inspection with the history it reads, or an entry an admin writes. */
  datatype Action =
    | Inspect(history: seq<HistoryRow>, job: InspectJob, stored: seq<bool>, written: seq<bool>)
    | Record(operatorId: Id, kind: Kind, severity: Severity)

  predicate Fitting(dist: Distance, a: Action) {
    a.Inspect? ==> |a.stored| == |a.written| == |Hits(dist, a.history, a.job)|
  }

  function Step(dist: Distance, log: seq<LogEntry>, a: Action): seq<LogEntry>
    requires Fitting(dist, a)
  {
    match a
    case Inspect(history, job, stored, written) => log + Charged(job.operatorId, Hits(dist, history, job), stored,
        written)
    case Record(op, kind, severity) => log + [LogEntry(op, ComputeDelta(kind, severity), false)]
  }

  function Run(dist: Distance, actions: seq<Action>): seq<LogEntry>
    requires forall i :: 0 <= i < |actions| ==> Fitting(dist, actions[i])
  {
    if actions == [] then [] else Step(dist, Run(dist, actions[..|actions| - 1]), actions[|actions| - 1])
  }

  function Inspections(op: Id): Action -> int {
    (a: Action) => if a.Inspect? && a.job.operatorId == op then 1 else 0
  }

  /** What an admin's entry is worth: 5, 15 or 50, taken off for a penalty and added for a commendation. */
  function Worth(kind: Kind, severity: Severity): int {
    var points := if severity == MINOR then 5 else if severity == MAJOR then 15 else 50;
    if kind == COMMENDATION then points else -points
  }

  function Recorded(op: Id): Action -> int {
    (a: Action) => if a.Record? && a.operatorId == op then Worth(a.kind, a.severity) else 0
  }

  /** What an inspection of the operator costs. */
  function Charges(dist: Distance, op: Id): Action -> int {
    (a: Action) =>
      if a.Inspect? && a.job.operatorId == op && |a.written| == |Hits(dist, a.history, a.job)| && false !in a.stored
      then TotalCost(Hits(dist, a.history, a.job), a.written) else 0
  }

  lemma ScoreAfter(dist: Distance, log: seq<LogEntry>, a: Action, op: Id)
    requires Fitting(dist, a)
    ensures Score(Step(dist, log, a), op) == Score(log, op) + Recorded(op)(a) - Charges(dist, op)(a)
    ensures 0 <= Charges(dist, op)(a) <= 65 * Inspections(op)(a)
  {
    match a
    case Inspect(history, job, stored, written) =>
      var hits := Hits(dist, history, job);
      SumAppend(log, Charged(job.operatorId, hits, stored, written), Delta(op));
      if job.operatorId == op {
        InspectionLowersByStep(dist, history, job, log, stored, written);
      } else {
        OthersUntouched(job.operatorId, hits, written, op);
      }
    case Record(o, kind, severity) =>
      SumAppend(log, [LogEntry(o, ComputeDelta(kind, severity), false)], Delta(op));
  }

  /**
   * In every run the score is 100 plus what admins recorded less what the
   * inspections cost, so after n inspections it is at least 100 - 65 n plus all
   * other entries, and at most 100 plus them.
   */
  lemma {:induction false} ScoreStaysInBounds(dist: Distance, actions: seq<Action>, op: Id)
    requires forall i :: 0 <= i < |actions| ==> Fitting(dist, actions[i])
    ensures var others := Sum(actions, Recorded(op)); var score := Score(Run(dist, actions), op);
            && score == 100 + others - Sum(actions, Charges(dist, op))
            && 100 - 65 * Sum(actions, Inspections(op)) + others <= score <= 100 + others
    decreases |actions|
  {
    if actions != [] {
      var init, last := actions[..|actions| - 1], actions[|actions| - 1];
      ScoreStaysInBounds(dist, init, op);
      assert actions == init + [last];
      SumAppend(init, [last], Recorded(op));
      SumAppend(init, [last], Inspections(op));
      SumAppend(init, [last], Charges(dist, op));
      ScoreAfter(dist, Run(dist, init), last, op);
    }
  }

  lemma {:induction false} OthersUntouched(who: Id, hits: seq<Hit>, written: seq<bool>, op: Id)
    requires |written| == |hits| && who != op
    ensures Sum(Penalties(who, hits, written), Delta(op)) == 0
    decreases |hits|
  {
    if hits != [] {
      var n := |hits| - 1;
      OthersUntouched(who, hits[..n], written[..n], op);
      var severity := MapToReputation(hits[n].severity);
      SumAppend(Penalties(who, hits[..n], written[..n]),
                if severity.Some? && written[n] then [LogEntry(who, ComputeDelta(PENALTY, severity.value), true)]
                    else [], Delta(op));
    }
  }

  // ---------- The service ----------

  function SuspicionOf(job: InspectJob, h: Hit): Suspicion {
    Suspicion(job.operatorId, job.eventId, h, job.recordedAt)
  }

  /** The suspicions whose inserts succeed; they are all attempted. */
  function Suspicions(job: InspectJob, hits: seq<Hit>, stored: seq<bool>): seq<Suspicion>
    requires |stored| == |hits|
  {
    if hits == [] then []
    else
      var n := |hits| - 1;
      Suspicions(job, hits[..n], stored[..n]) + if stored[n] then [SuspicionOf(job, hits[n])] else []
  }

  lemma {:induction false} AllSuspicions(job: InspectJob, hits: seq<Hit>, stored: seq<bool>)
    requires |stored| == |hits| && AllStored(stored)
    ensures |Suspicions(job, hits, stored)| == |hits|
    ensures forall i :: 0 <= i < |hits| ==>
      Suspicions(job, hits, stored)[i] == Suspicion(job.operatorId, job.eventId, hits[i], job.recordedAt)
    decreases |hits|
  {
    if hits != [] {
      AllSuspicions(job, hits[..|hits| - 1], stored[..|hits| - 1]);
    }
  }

  /** Whenever an inspection charges anything, each of its hits is on record as a suspicion. */
  lemma ChargesAreOnRecord(job: InspectJob, hits: seq<Hit>, stored: seq<bool>, written: seq<bool>)
    requires |stored| == |written| == |hits| && Charged(job.operatorId, hits, stored, written) != []
    ensures |Suspicions(job, hits, stored)| == |hits|
    ensures forall i :: 0 <= i < |hits| ==>
      Suspicions(job, hits, stored)[i] == Suspicion(job.operatorId, job.eventId, hits[i], job.recordedAt)
  {
    AllSuspicions(job, hits, stored);
  }

  /** Suspicion x is of hit i, whose insert succeeds. */
  predicate SuspectedFor(job: InspectJob, hits: seq<Hit>, stored: seq<bool>, x: Suspicion, i: int) {
    && 0 <= i < |hits| && i < |stored| && stored[i]
    && x == Suspicion(job.operatorId, job.eventId, hits[i], job.recordedAt)
  }

  /** On record are the hits whose inserts succeed, for the operator and event inspected, at the time of the fix. */
  lemma {:induction false} SuspicionsExactly(job: InspectJob, hits: seq<Hit>, stored: seq<bool>, x: Suspicion)
    requires |stored| == |hits|
    ensures x in Suspicions(job, hits, stored) <==> exists i :: SuspectedFor(job, hits, stored, x, i)
    decreases |hits|
  {
    if hits != [] {
      var n := |hits| - 1;
      SuspicionsExactly(job, hits[..n], stored[..n], x);
      if i :| SuspectedFor(job, hits[..n], stored[..n], x, i) {
        assert SuspectedFor(job, hits, stored, x, i);
      }
      if i :| SuspectedFor(job, hits, stored, x, i) {
        assert i == n || SuspectedFor(job, hits[..n], stored[..n], x, i);
      }
      assert SuspectedFor(job, hits, stored, x, n) <==> stored[n] && x == SuspicionOf(job, hits[n]);
    }
  }

  /** Entry x is the penalty of hit i, which is MAJOR or SEVERE and whose write succeeds. */
  predicate ChargedFor(op: Id, hits: seq<Hit>, written: seq<bool>, x: LogEntry, i: int) {
    && 0 <= i < |hits| && i < |written| && written[i] && hits[i].severity != MINOR
    && x == LogEntry(op, if hits[i].severity == MAJOR then -15 else -50, true)
  }

  function LastPenalty(op: Id, hits: seq<Hit>, written: seq<bool>): seq<LogEntry>
    requires |written| == |hits| > 0
  {
    var n := |hits| - 1;
    var severity := MapToReputation(hits[n].severity);
    if severity.Some? && written[n] then [LogEntry(op, ComputeDelta(PENALTY, severity.value), true)] else []
  }

  lemma LastIsCharged(op: Id, hits: seq<Hit>, written: seq<bool>, x: LogEntry)
    requires |written| == |hits| > 0
    ensures x in LastPenalty(op, hits, written) <==> ChargedFor(op, hits, written, x, |hits| - 1)
  {
  }

  /** Charged are the MAJOR and SEVERE hits whose writes succeed, to the operator inspected, as automatic entries. */
  lemma {:induction false} PenaltiesExactly(op: Id, hits: seq<Hit>, written: seq<bool>, x: LogEntry)
    requires |written| == |hits|
    ensures x in Penalties(op, hits, written) <==> exists i :: ChargedFor(op, hits, written, x, i)
    decreases |hits|
  {
    if hits != [] {
      var n := |hits| - 1;
      PenaltiesExactly(op, hits[..n], written[..n], x);
      LastIsCharged(op, hits, written, x);
      assert Penalties(op, hits, written) == Penalties(op, hits[..n], written[..n]) + LastPenalty(op, hits, written);
      if i :| ChargedFor(op, hits[..n], written[..n], x, i) {
        assert ChargedFor(op, hits, written, x, i);
      }
      if i :| ChargedFor(op, hits, written, x, i) {
        assert i == n || ChargedFor(op, hits[..n], written[..n], x, i);
      }
    }
  }

  datatype InspectError = SuspicionNotStored

  lemma NothingToWrite(job: InspectJob, hits: seq<Hit>, stored: seq<bool>, written: seq<bool>)
    requires |hits| == |stored| == |written| == 0
    ensures Suspicions(job, hits, stored) == [] && Charged(job.operatorId, hits, stored, written) == [] &&
        AllStored(stored)
    ensures forall log: seq<LogEntry> :: log + Charged(job.operatorId, hits, stored, written) == log
    ensures forall log: seq<Suspicion> :: log + Suspicions(job, hits, stored) == log
  {
  }

  class AntiCheatService {
    const dist: Distance
    var history: seq<HistoryRow>
    var suspicions: seq<Suspicion>
    var reputation: seq<LogEntry>

    constructor (dist: Distance)
      ensures this.dist == dist && history == [] && suspicions == [] && reputation == []
    {
      this.dist := dist;
      history, suspicions, reputation := [], [], [];
    }

    /** Runs the detectors, pushing onto the list of hits. */
    method Detect(job: InspectJob) returns (hits: seq<Hit>)
      ensures hits == Hits(dist, history, job)
    {
      var previousFixes := PreviousFixes(history, job);
      hits := [];
      if previousFixes != [] {
        var speed := EvaluateSpeed(dist, previousFixes[0], job);
        if speed.Some? {
          hits := hits + [speed.value];
        }
        var jump := EvaluateJump(dist, previousFixes[0], job);
        if jump.Some? {
          hits := hits + [jump.value];
        }
      }
      var gps := EvaluateGps(dist, previousFixes, job);
      if gps.Some? {
        hits := hits + [gps.value];
      }
    }

    /**
     * Every hit becomes a suspicion; if one can not be stored the job fails
     * before any penalty. A failed reputation write is logged and skipped.
     */
    method InspectPosition(job: InspectJob, stored: seq<bool>, written: seq<bool>)
        returns (r: Result<seq<Hit>, InspectError>)
      requires |stored| == |written| == |Hits(dist, history, job)|
      modifies this`suspicions, this`reputation
      ensures r == if AllStored(stored) then Ok(Hits(dist, history, job)) else Err(SuspicionNotStored)
      ensures suspicions == old(suspicions) + Suspicions(job, Hits(dist, history, job), stored)
      ensures reputation == old(reputation) + Charged(job.operatorId, Hits(dist, history, job), stored, written)
      ensures IsStep(Score(old(reputation), job.operatorId) - Score(reputation, job.operatorId))
    {
      var hits := Detect(job);
      InspectionLowersByStep(dist, history, job, reputation, stored, written);
      if |hits| == 0 {
        NothingToWrite(job, hits, stored, written);
        return Ok(hits);
      }
      var ok := WriteSuspicions(job, hits, stored);
      if !ok {
        assert reputation + [] == reputation;
        return Err(SuspicionNotStored);
      }
      WritePenalties(job.operatorId, hits, written);
      return Ok(hits);
    }

    /** Promise.all: every insert is attempted, and one failure fails them together. */
    method WriteSuspicions(job: InspectJob, hits: seq<Hit>, stored: seq<bool>) returns (ok: bool)
      requires |stored| == |hits|
      modifies this`suspicions
      ensures suspicions == old(suspicions) + Suspicions(job, hits, stored)
      ensures ok <==> AllStored(stored)
      ensures ok ==> |suspicions| == |old(suspicions)| + |hits|
    {
      ok := true;
      for i := 0 to |hits|
        invariant suspicions == old(suspicions) + Suspicions(job, hits[..i], stored[..i])
        invariant ok <==> AllStored(stored[..i])
      {
        assert hits[..i + 1][..i] == hits[..i] && stored[..i + 1][..i] == stored[..i];
        assert AllStored(stored[..i + 1]) <==> AllStored(stored[..i]) && stored[i];
        if stored[i] {
          suspicions := suspicions + [SuspicionOf(job, hits[i])];
        } else {
          ok := false;
        }
      }
      assert hits[..|hits|] == hits && stored[..|hits|] == stored;
      if ok {
        AllSuspicions(job, hits, stored);
      }
    }

    method WritePenalties(op: Id, hits: seq<Hit>, written: seq<bool>)
      requires |written| == |hits|
      modifies this`reputation
      ensures reputation == old(reputation) + Penalties(op, hits, written)
    {
      for i := 0 to |hits|
        invariant reputation == old(reputation) + Penalties(op, hits[..i], written[..i])
      {
        assert hits[..i + 1][..i] == hits[..i] && written[..i + 1][..i] == written[..i];
        var severity := MapToReputation(hits[i].severity);
        if severity.Some? && written[i] {
          reputation := reputation + [LogEntry(op, ComputeDelta(PENALTY, severity.value), true)];
        }
      }
      assert hits[..|hits|] == hits && written[..|hits|] == written;
    }
  }
}
