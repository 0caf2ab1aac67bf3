/**
 * The position pipeline: Redis deduplication, the clock clamp, the history
 * append, the live snapshot and the two downstream queues. Times are integer
 * milliseconds.
 */
module Positions {
  import opened Common
  import opened MissionEngine

  const MAX_DRIFT_MS := 5 * 60 * 1000
  const LIVE_TTL_MS := 60 * 1000
  const DEDUP_TTL_MS := 5 * 60 * 1000

  datatype Reading = Reading(at: Point, accuracyM: Option<real>, headingDeg: Option<real>, speedMps: Option<real>)

  datatype IngestJob = IngestJob(operatorId: Id, eventId: Id, reading: Reading, clientEventId: Id, recordedAt: int,
      receivedAt: int)

  datatype HistoryRow = HistoryRow(operatorId: Id, eventId: Id, reading: Reading, clientEventId: Id, recordedAt: int)

  datatype Snapshot = Snapshot(operatorId: Id, eventId: Id, reading: Reading, recordedAt: int, receivedAt: int)

  datatype LiveEntry = LiveEntry(snapshot: Snapshot, expiresAt: int)

  datatype InspectJob = InspectJob(eventId: Id, operatorId: Id, at: Point, recordedAt: int,
      clientSpeedMps: Option<real>, accuracyM: Option<real>)

  /** The id under which both queues take a job: (eventId, operatorId, recordedAt). */
  type JobId = (Id, Id, int)

  /**
   * Which of the stores behind one delivery are up, and which job ids each
   * queue has let go of since it was last offered a job: a finished job is
   * kept for a while, and as long as an id is held a job with it is not added.
   */
  datatype Io = Io(historyUp: bool, snapshotUp: bool, missionQueueUp: bool, antiCheatQueueUp: bool,
                   ticksReleased: set<JobId>, inspectionsReleased: set<JobId>)

  datatype Delivery = Delivery(job: IngestJob, now: int, io: Io)

  datatype Outcome = Duplicate | HistoryFailed | SnapshotFailed | Ingested

  function Abs(x: int): (r: int)
    ensures r >= 0 && (r == x || r == -x)
  {
    if x < 0 then -x else x
  }

  /** The server-authoritative time: never more than the drift limit away from the receive time. */
  function AdjustTimestamp(job: IngestJob): (at: int)
    ensures -300_000 <= at - job.receivedAt <= 300_000
    ensures -300_000 <= job.recordedAt - job.receivedAt <= 300_000 ==> at == job.recordedAt
    ensures at != job.recordedAt ==> at == job.receivedAt
  {
    if Abs(job.receivedAt - job.recordedAt) > MAX_DRIFT_MS then job.receivedAt else job.recordedAt
  }

  // ---------- What each store receives for an accepted job ----------

  function HistoryOf(j: IngestJob): HistoryRow {
    HistoryRow(j.operatorId, j.eventId, j.reading, j.clientEventId, AdjustTimestamp(j))
  }

  function SnapshotOf(j: IngestJob): Snapshot {
    Snapshot(j.operatorId, j.eventId, j.reading, AdjustTimestamp(j), j.receivedAt)
  }

  function TickOf(j: IngestJob): Job {
    Job(j.eventId, j.operatorId, j.reading.at, AdjustTimestamp(j))
  }

  function InspectionOf(j: IngestJob): InspectJob {
    InspectJob(j.eventId, j.operatorId, j.reading.at, AdjustTimestamp(j), j.reading.speedMps, j.reading.accuracyM)
  }

  function JobIdOf(j: IngestJob): JobId {
    (j.eventId, j.operatorId, AdjustTimestamp(j))
  }

  function IdOfTick(t: Job): JobId {
    (t.eventId, t.operatorId, t.recordedAt)
  }

  function IdOfInspection(i: InspectJob): JobId {
    (i.eventId, i.operatorId, i.recordedAt)
  }

  // ---------- One delivery ----------

  /** A queue: every job it ever took, in order, and the ids it still holds. */
  datatype Queue<J> = Queue(jobs: seq<J>, held: set<JobId>)

  /** `queue.add` with a job id. */
  function Offered<J>(q: Queue<J>, up: bool, released: set<JobId>, id: JobId, job: J): Queue<J> {
    var held := q.held - released;
    if up && id !in held then Queue(q.jobs + [job], held + {id}) else Queue(q.jobs, held)
  }

  datatype Pipeline = Pipeline(
    dedup: map<Id, int>, // clientEventId to the time its key expires
    history: seq<HistoryRow>,
    live: map<Id, LiveEntry>,
    ticks: Queue<Job>,
    inspections: Queue<InspectJob>)

  const EMPTY := Pipeline(map[], [], map[], Queue([], {}), Queue([], {}))

  /** GET of a key with a TTL. */
  function LiveAt(s: Pipeline, op: Id, now: int): Option<Snapshot> {
    if op in s.live && now < s.live[op].expiresAt then Some(s.live[op].snapshot) else None
  }

  /** SET NX: the key can be taken unless an unexpired one is there. */
  predicate CanAcquire(s: Pipeline, clientEventId: Id, now: int) {
    clientEventId !in s.dedup || s.dedup[clientEventId] <= now
  }

  function OutcomeOf(s: Pipeline, d: Delivery): Outcome {
    if !CanAcquire(s, d.job.clientEventId, d.now) then Duplicate
    else if !d.io.historyUp then HistoryFailed
    else if !d.io.snapshotUp then SnapshotFailed
    else Ingested
  }

  function Deliver(s: Pipeline, d: Delivery): Pipeline {
    var o := OutcomeOf(s, d);
    if o.Duplicate? then s
    else
      Pipeline(
        s.dedup[d.job.clientEventId := d.now + DEDUP_TTL_MS],
        if o.HistoryFailed? then s.history else s.history + [HistoryOf(d.job)],
        if o.Ingested? then s.live[d.job.operatorId := LiveEntry(SnapshotOf(d.job), d.now + LIVE_TTL_MS)] else s.live,
        if o.Ingested? then Offered(s.ticks, d.io.missionQueueUp, d.io.ticksReleased, JobIdOf(d.job), TickOf(d.job))
            else s.ticks,
        if o.Ingested? then Offered(s.inspections, d.io.antiCheatQueueUp, d.io.inspectionsReleased, JobIdOf(d.job),
            InspectionOf(d.job))
        else s.inspections)
  }

  /**
   * What a taken key means: it can be taken again from 300 s on and no earlier;
   * a rejected delivery changes nothing.
   */
  lemma TakenKeyStands(s: Pipeline, d: Delivery, id: Id, t: int)
    ensures CanAcquire(Deliver(s, d), id, t) <==>
            if id == d.job.clientEventId && CanAcquire(s, id, d.now) then t >= d.now + 300_000
                else CanAcquire(s, id, t)
    ensures !CanAcquire(s, d.job.clientEventId, d.now) ==> Deliver(s, d) == s
  {
  }

  class PositionsProcessor {
    var dedup: map<Id, int>
    var history: seq<HistoryRow>
    var live: map<Id, LiveEntry>
    var ticks: Queue<Job>
    var inspections: Queue<InspectJob>

    constructor ()
      ensures State() == EMPTY
    {
      dedup, history, live, ticks, inspections := map[], [], map[], Queue([], {}), Queue([], {});
    }

    ghost function State(): Pipeline
      reads this
    {
      Pipeline(dedup, history, live, ticks, inspections)
    }

    /** SET key 1 EX 300 NX. */
    method AcquireDedup(clientEventId: Id, now: int) returns (acquired: bool)
      modifies this`dedup
      ensures acquired <==> old(CanAcquire(State(), clientEventId, now))
      ensures dedup == if acquired then old(dedup)[clientEventId := now + DEDUP_TTL_MS] else old(dedup)
    {
      acquired := clientEventId !in dedup || dedup[clientEventId] <= now;
      if acquired {
        dedup := dedup[clientEventId := now + DEDUP_TTL_MS];
      }
    }

    /** Adds a tick unless its id is held; a queue that is down is only logged. */
    method EnqueueTick(tick: Job, io: Io)
      modifies this`ticks
      ensures ticks == Offered(old(ticks), io.missionQueueUp, io.ticksReleased, IdOfTick(tick), tick)
      ensures |ticks.jobs| == |old(ticks.jobs)| + 1
           <==> io.missionQueueUp && (IdOfTick(tick) in io.ticksReleased || IdOfTick(tick) !in old(ticks.held))
    {
      ticks := ticks.(held := ticks.held - io.ticksReleased);
      if io.missionQueueUp {
        if IdOfTick(tick) !in ticks.held {
          ticks := Queue(ticks.jobs + [tick], ticks.held + {IdOfTick(tick)});
        }
      }
    }

    method EnqueueInspection(inspection: InspectJob, io: Io)
      modifies this`inspections
      ensures inspections == Offered(old(inspections), io.antiCheatQueueUp, io.inspectionsReleased,
          IdOfInspection(inspection), inspection)
      ensures |inspections.jobs| == |old(inspections.jobs)| + 1 <==>
              io.antiCheatQueueUp && (IdOfInspection(inspection) in io.inspectionsReleased ||
                  IdOfInspection(inspection) !in old(inspections.held))
    {
      inspections := inspections.(held := inspections.held - io.inspectionsReleased);
      if io.antiCheatQueueUp {
        if IdOfInspection(inspection) !in inspections.held {
          inspections := Queue(inspections.jobs + [inspection], inspections.held + {IdOfInspection(inspection)});
        }
      }
    }

    /** A failed history or snapshot write throws; a failed enqueue is only logged. */
    method Process(job: IngestJob, now: int, io: Io) returns (outcome: Outcome)
      modifies this
      ensures outcome == OutcomeOf(old(State()), Delivery(job, now, io))
      ensures State() == Deliver(old(State()), Delivery(job, now, io))
    {
      var acquired := AcquireDedup(job.clientEventId, now);
      if !acquired {
        return Duplicate;
      }
      var recordedAt := AdjustTimestamp(job);
      if !io.historyUp {
        return HistoryFailed;
      }
      history := history + [HistoryRow(job.operatorId, job.eventId, job.reading, job.clientEventId, recordedAt)];
      if !io.snapshotUp {
        return SnapshotFailed;
      }
      var snapshot := Snapshot(job.operatorId, job.eventId, job.reading, recordedAt, job.receivedAt);
      live := live[job.operatorId := LiveEntry(snapshot, now + LIVE_TTL_MS)];
      EnqueueTick(Job(job.eventId, job.operatorId, job.reading.at, recordedAt), io);
      EnqueueInspection(InspectJob(job.eventId, job.operatorId, job.reading.at, recordedAt, job.reading.speedMps,
          job.reading.accuracyM), io);
      return Ingested;
    }
  }
}
