/**
 * The mission engine: one queued position is evaluated against every live
 * mission of its event, and the per-(mission, operator) progress rows are
 * upserted. Times are integer milliseconds since the epoch.
 */
module MissionEngine {
  import opened Common

  // ---------- Tables ----------

  datatype Point = Point(lat: real, lon: real)

  datatype MissionType = CAPTURE | DEFEND | HOLD | CHECKPOINT | TIME | SQUAD | FACTION

  datatype MissionStatus = MissionPending | MissionActive | MissionCompleted | MissionCancelled

  datatype Config = Config(thresholdSeconds: Option<int>, durationSeconds: Option<int>, windowStart: int,
      windowEnd: int)

  datatype Mission = Mission(eventId: Id, kind: MissionType, zoneId: Option<Id>, config: Config, status: MissionStatus)

  datatype ProgressState = NOT_STARTED | IN_PROGRESS | COMPLETED | FAILED

  /** The JSON stored with a row: empty, the cumulative-time record, or a TIME hit. */
  datatype Payload = Empty | CaptureLike(accumulatedMs: int, lastInsideAt: Option<int>) | FirstHit(at: int)

  datatype Row = Row(state: ProgressState, progress: Payload, completedAt: Option<int>)

  type Key = (Id, Id) // (missionId, operatorId), the unique key of mission_progress

  datatype Job = Job(eventId: Id, operatorId: Id, at: Point, recordedAt: int)

  /** What the engine reads and never writes: missions, zones, and PostGIS. */
  datatype Board = Board(missions: map<Id, Mission>, zones: set<Id>, covers: (Id, Point) -> bool)

  // ---------- Pure decisions ----------

  predicate IsLive(m: Mission) {
    m.status != MissionCompleted && m.status != MissionCancelled
  }

  function LiveMissions(missions: map<Id, Mission>, eventId: Id): map<Id, Mission> {
    map id | id in missions && missions[id].eventId == eventId && IsLive(missions[id]) :: missions[id]
  }

  /** One spatial query for all zones of a batch; unknown zones yield no row. */
  function ComputeZoneContainment(b: Board, zoneIds: set<Id>, at: Point): map<Id, bool> {
    map z | z in zoneIds && z in b.zones :: b.covers(z, at)
  }

  predicate IsCumulative(m: Mission) {
    m.kind == CAPTURE || m.kind == HOLD || m.kind == DEFEND
  }

  function TargetMs(c: Config): int {
    1000 * OrElse(c.thresholdSeconds, OrElse(c.durationSeconds, 0))
  }

  datatype Decision =
    | CumulativeTime(inside: bool, recordedAt: int, targetMs: int)
    | Discrete(state: ProgressState, progress: Payload, completedAt: Option<int>)

  function Evaluate(m: Mission, insideByZone: map<Id, bool>, recordedAt: int): Option<Decision> {
    match m.kind
    case CHECKPOINT =>
      if m.zoneId.None? then None
      else if !OrElse(Lookup(insideByZone, m.zoneId.value), false) then None
      else Some(Discrete(COMPLETED, Empty, Some(recordedAt)))
    case CAPTURE | HOLD | DEFEND =>
      if m.zoneId.None? then None
      else Some(CumulativeTime(OrElse(Lookup(insideByZone, m.zoneId.value), false), recordedAt, TargetMs(m.config)))
    case TIME =>
      if recordedAt < m.config.windowStart || recordedAt > m.config.windowEnd then None
      else if m.zoneId.Some? && !OrElse(Lookup(insideByZone, m.zoneId.value), false) then None
      else Some(Discrete(COMPLETED, FirstHit(recordedAt), Some(recordedAt)))
    case SQUAD | FACTION => None
  }

  function PreviousAccumulated(existing: Option<Row>): int {
    if existing.Some? && existing.value.progress.CaptureLike? then existing.value.progress.accumulatedMs else 0
  }

  function PreviousInsideAt(existing: Option<Row>): Option<int> {
    if existing.Some? && existing.value.progress.CaptureLike? then existing.value.progress.lastInsideAt else None
  }

  /** The row written for a decision, given the row that was there. */
  function UpsertedRow(existing: Option<Row>, d: Decision): Row {
    match d
    case CumulativeTime(inside, recordedAt, targetMs) =>
      var since := PreviousInsideAt(existing);
      var delta := if inside && since.Some? then recordedAt - since.value else 0;
      var accumulated := PreviousAccumulated(existing) + if delta > 0 then delta else 0;
      var reached := accumulated >= targetMs;
      var done := existing.Some? && existing.value.state == COMPLETED;
      var stamped := existing.Some? && existing.value.completedAt.Some?;
      Row(
        if done || reached then COMPLETED else IN_PROGRESS,
        CaptureLike(accumulated, if inside then Some(recordedAt) else None),
        if stamped then existing.value.completedAt else if reached then Some(recordedAt) else None)
    case Discrete(state, progress, completedAt) =>
      if existing.Some? && existing.value.state == COMPLETED then existing.value
      else Row(state, progress, completedAt)
  }

  // ---------- Specification of one job ----------

  predicate Inside(b: Board, zone: Id, at: Point) {
    zone in b.zones && b.covers(zone, at)
  }

  /** The decision for one mission on its own: its zone is asked directly. */
  function DirectDecision(b: Board, m: Mission, job: Job): Option<Decision> {
    var answer: map<Id, bool> := if m.zoneId.Some? then map[m.zoneId.value := Inside(b, m.zoneId.value, job.at)]
        else map[];
    Evaluate(m, answer, job.recordedAt)
  }

  predicate Touches(b: Board, ms: map<Id, Mission>, job: Job, k: Key) {
    k.1 == job.operatorId && k.0 in ms && DirectDecision(b, ms[k.0], job).Some?
  }

  /**
   * The progress table after a job: the row of each mission in `ms` that has a
   * decision is upserted from its own old row, with its own zone answer, and
   * every other row is untouched. No order of missions appears here.
   */
  function After(p: map<Key, Row>, b: Board, ms: map<Id, Mission>, job: Job): map<Key, Row> {
    map k: Key | k in p.Keys + (set id | id in ms :: (id, job.operatorId)) && (k in p || Touches(b, ms, job, k)) ::
      if Touches(b, ms, job, k) then UpsertedRow(Lookup(p, k), DirectDecision(b, ms[k.0], job).value) else p[k]
  }

  lemma AfterAt(p: map<Key, Row>, b: Board, ms: map<Id, Mission>, job: Job, k: Key)
    ensures Lookup(After(p, b, ms, job), k) ==
            if Touches(b, ms, job, k) then Some(UpsertedRow(Lookup(p, k), DirectDecision(b, ms[k.0], job).value))
            else Lookup(p, k)
  {
    if Touches(b, ms, job, k) {
      assert k == (k.0, job.operatorId);
    }
  }

  /** The batched zone map gives each mission the answer of its own zone. */
  lemma BatchedZonesAreDirect(b: Board, zoneIds: set<Id>, m: Mission, job: Job)
    requires m.zoneId.Some? ==> m.zoneId.value in zoneIds
    ensures Evaluate(m, ComputeZoneContainment(b, zoneIds, job.at), job.recordedAt) == DirectDecision(b, m, job)
  {
  }

  /** Processing one more mission of a batch. */
  lemma AfterOneMore(p: map<Key, Row>, b: Board, ms: map<Id, Mission>, id: Id, m: Mission, job: Job)
    requires id !in ms
    ensures After(p, b, ms[id := m], job) ==
            var q := After(p, b, ms, job); var d := DirectDecision(b, m, job); var k := (id, job.operatorId);
            if d.Some? then q[k := UpsertedRow(Lookup(q, k), d.value)] else q
  {
    var q := After(p, b, ms, job);
    var d := DirectDecision(b, m, job);
    var key := (id, job.operatorId);
    var r := if d.Some? then q[key := UpsertedRow(Lookup(q, key), d.value)] else q;
    forall k ensures Lookup(After(p, b, ms[id := m], job), k) == Lookup(r, k) {
      AfterAt(p, b, ms, job, k);
      AfterAt(p, b, ms, job, key);
      AfterAt(p, b, ms[id := m], job, k);
    }
    SameLookups(After(p, b, ms[id := m], job), r);
  }

  // ---------- The service ----------

  class MissionEngineService {
    const covers: (Id, Point) -> bool
    var missions: map<Id, Mission>
    var zones: set<Id>
    var progress: map<Key, Row>

    constructor (covers: (Id, Point) -> bool, missions: map<Id, Mission>, zones: set<Id>)
      ensures this.covers == covers && this.missions == missions && this.zones == zones && progress == map[]
    {
      this.covers, this.missions, this.zones, progress := covers, missions, zones, map[];
    }

    function TheBoard(): Board
      reads this
    {
      Board(missions, zones, covers)
    }

    /** Reads the old row, folds the decision in, and writes the row back. */
    method UpsertProgress(missionId: Id, operatorId: Id, decision: Decision) returns (row: Row)
      modifies this`progress
      ensures row == UpsertedRow(Lookup(old(progress), (missionId, operatorId)), decision)
      ensures progress == old(progress)[(missionId, operatorId) := row]
    {
      var key := (missionId, operatorId);
      var existing := Lookup(progress, key);
      if decision.CumulativeTime? {
        var secondsAccumulated := PreviousAccumulated(existing);
        var previousInsideAt := PreviousInsideAt(existing);
        if decision.inside {
          if previousInsideAt.Some? {
            var delta := decision.recordedAt - previousInsideAt.value;
            if delta > 0 {
              secondsAccumulated := secondsAccumulated + delta;
            }
          }
        }
        var lastInsideAt := if decision.inside then Some(decision.recordedAt) else None;
        var reachedTarget := secondsAccumulated >= decision.targetMs;
        var newState := if reachedTarget then COMPLETED else IN_PROGRESS;
        var stored := if existing.Some? then existing.value.completedAt else None;
        var completedAt := if reachedTarget then Some(OrElse(stored, decision.recordedAt)) else None;
        var finalState := if existing.Some? && existing.value.state == COMPLETED then COMPLETED else newState;
        var finalCompletedAt := if stored.Some? then stored else if reachedTarget then completedAt else None;
        row := Row(finalState, CaptureLike(secondsAccumulated, lastInsideAt), finalCompletedAt);
      } else if existing.Some? && existing.value.state == COMPLETED {
        row := existing.value;
      } else {
        row := Row(decision.state, decision.progress, decision.completedAt);
      }
      progress := progress[key := row];
    }

    /**
     * One queue delivery. The database returns the missions in no particular
     * order, and the loop takes them in any order. `lifetime` is how many
     * missions the worker lives to handle: a smaller number than there are
     * live missions is a crash in the middle of the loop. `handled` is what
     * was done by then.
     */
    method ProcessPosition(job: Job, lifetime: nat) returns (finished: bool, ghost handled: map<Id, Mission>)
      modifies this`progress
      ensures progress == After(old(progress), TheBoard(), handled, job)
      ensures handled.Items <= LiveMissions(missions, job.eventId).Items
      ensures finished ==> handled == LiveMissions(missions, job.eventId)
      ensures |LiveMissions(missions, job.eventId)| <= lifetime ==> finished
    {
      var selected := LiveMissions(missions, job.eventId);
      var b := TheBoard();
      handled := map[];
      ghost var before := progress;
      NothingHandled(before, b, job);
      if |selected| == 0 {
        return true, map[];
      }
      var zoneIds := set id | id in selected && selected[id].zoneId.Some? :: selected[id].zoneId.value;
      var insideByZone := ComputeZoneContainment(b, zoneIds, job.at);
      var todo, left := selected.Keys, lifetime;
      ExceptSome(selected, todo);
      while todo != {} && left > 0
        invariant todo <= selected.Keys
        invariant handled == Except(selected, todo)
        invariant progress == After(before, b, handled, job)
        invariant |selected| <= lifetime ==> |todo| <= left
        decreases |todo|
      {
        var id :| id in todo;
        var mission := selected[id];
        var decision := Evaluate(mission, insideByZone, job.recordedAt);
        BatchedZonesAreDirect(b, zoneIds, mission, job);
        AfterOneMore(before, b, handled, id, mission, job);
        ExceptFewer(selected, todo, id);
        if decision.Some? {
          var _ := UpsertProgress(id, job.operatorId, decision.value);
        }
        handled := handled[id := mission];
        todo, left := todo - {id}, left - 1;
      }
      finished := todo == {};
      ExceptSome(selected, todo);
    }
  }

  function Except(ms: map<Id, Mission>, todo: set<Id>): map<Id, Mission> {
    map id | id in ms && id !in todo :: ms[id]
  }

  lemma ExceptFewer(ms: map<Id, Mission>, todo: set<Id>, id: Id)
    requires id in todo && todo <= ms.Keys
    ensures id !in Except(ms, todo) && Except(ms, todo - {id}) == Except(ms, todo)[id := ms[id]]
  {
  }

  lemma ExceptSome(ms: map<Id, Mission>, todo: set<Id>)
    ensures Except(ms, todo).Items <= ms.Items
    ensures Except(ms, {}) == ms
    ensures Except(ms, ms.Keys) == map[]
  {
  }

  lemma NothingHandled(p: map<Key, Row>, b: Board, job: Job)
    ensures After(p, b, map[], job) == p
  {
  }
}
