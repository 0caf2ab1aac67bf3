/** Properties of the pipeline over whole sequences of timed deliveries. */
module PositionRuns {
  import opened Common
  import opened Positions
  import MissionEngine
  import MissionRuns

  function Run(ds: seq<Delivery>): Pipeline {
    if ds == [] then EMPTY else Deliver(Run(ds[..|ds| - 1]), ds[|ds| - 1])
  }

  /** Delivery j of the run took the deduplication key. */
  predicate Accepted(ds: seq<Delivery>, j: nat)
    requires j < |ds|
  {
    OutcomeOf(Run(ds[..j]), ds[j]) != Duplicate
  }

  predicate InOrder(ds: seq<Delivery>) {
    forall i, j :: 0 <= i <= j < |ds| ==> ds[i].now <= ds[j].now
  }

  /** Delivery i was accepted and its key still stands when delivery j arrives. */
  predicate Blocks(ds: seq<Delivery>, i: nat, j: nat)
    requires i < j < |ds|
  {
    Accepted(ds, i) && ds[i].job.clientEventId == ds[j].job.clientEventId && ds[j].now < ds[i].now + 300_000
  }

  lemma PrefixAccepts(ds: seq<Delivery>, n: nat, k: nat)
    requires k < n <= |ds|
    ensures Accepted(ds[..n], k) == Accepted(ds, k)
  {
    assert ds[..n][..k] == ds[..k];
  }

  /** Delivery i is accepted, of the client event, and the key expires 300 s after it. */
  predicate SetsKey(ds: seq<Delivery>, id: Id, i: nat) {
    && i < |ds| && Accepted(ds, i) && ds[i].job.clientEventId == id
    && id in Run(ds).dedup && Run(ds).dedup[id] == ds[i].now + 300_000
  }

  /** The key is there and does not expire before 300 s after delivery k. */
  predicate CoveredByKey(ds: seq<Delivery>, id: Id, k: nat)
    requires k < |ds|
  {
    id in Run(ds).dedup && ds[k].now + 300_000 <= Run(ds).dedup[id]
  }

  /** What one more delivery does to the key of a client event. */
  lemma KeyAfter(ds: seq<Delivery>, id: Id)
    requires ds != []
    ensures var n := |ds| - 1; var before, after := Run(ds[..n]).dedup, Run(ds).dedup;
            if Accepted(ds, n) && ds[n].job.clientEventId == id then after == before[id := ds[n].now + 300_000]
            else Lookup(after, id) == Lookup(before, id)
  {
  }

  lemma {:induction false} KeyIsSet(ds: seq<Delivery>, id: Id) returns (i: nat)
    requires id in Run(ds).dedup
    ensures SetsKey(ds, id, i)
    decreases |ds|
  {
    var n := |ds| - 1;
    KeyAfter(ds, id);
    if Accepted(ds, n) && ds[n].job.clientEventId == id {
      i := n;
    } else {
      i := KeyIsSet(ds[..n], id);
      PrefixAccepts(ds, n, i);
    }
  }

  lemma {:induction false} KeyCovers(ds: seq<Delivery>, id: Id, k: nat)
    requires InOrder(ds) && k < |ds| && Accepted(ds, k) && ds[k].job.clientEventId == id
    ensures CoveredByKey(ds, id, k)
    decreases |ds|
  {
    var n := |ds| - 1;
    KeyAfter(ds, id);
    if k < n {
      PrefixAccepts(ds, n, k);
      KeyCovers(ds[..n], id, k);
    }
  }

  /** An expiry time in Redis is that of the last accepted delivery with that id. */
  lemma KeyOfLastAccepted(ds: seq<Delivery>, id: Id) returns (i: nat)
    requires InOrder(ds)
    ensures id in Run(ds).dedup ==> SetsKey(ds, id, i)
    ensures forall k :: 0 <= k < |ds| && Accepted(ds, k) && ds[k].job.clientEventId == id ==> CoveredByKey(ds, id, k)
  {
    i := 0;
    if id in Run(ds).dedup {
      i := KeyIsSet(ds, id);
    }
    forall k | 0 <= k < |ds| && Accepted(ds, k) && ds[k].job.clientEventId == id ensures CoveredByKey(ds, id, k) {
      KeyCovers(ds, id, k);
    }
  }

  /**
   * The deduplication window, exactly: a delivery is accepted if and only if
   * no accepted delivery of the same client event came less than 300 s before.
   */
  lemma AcceptedIffNotBlocked(ds: seq<Delivery>, j: nat)
    requires InOrder(ds) && j < |ds|
    ensures Accepted(ds, j) <==> forall i :: 0 <= i < j ==> !Blocks(ds, i, j)
  {
    var init := ds[..j];
    var id := ds[j].job.clientEventId;
    var last := KeyOfLastAccepted(init, id);
    forall k | 0 <= k < j ensures Accepted(init, k) == Accepted(ds, k) {
      PrefixAccepts(ds, j, k);
    }
    if !Accepted(ds, j) {
      assert Blocks(ds, last, j);
    }
  }

  /** Two accepted deliveries of one client event are at least 300 s apart. */
  lemma AcceptedFarApart(ds: seq<Delivery>, i: nat, j: nat)
    requires InOrder(ds) && i < j < |ds| && ds[i].job.clientEventId == ds[j].job.clientEventId
    requires Accepted(ds, i) && Accepted(ds, j)
    ensures ds[j].now - ds[i].now >= 300_000
  {
    AcceptedIffNotBlocked(ds, j);
    assert !Blocks(ds, i, j);
  }

  // ---------- What the stores hold ----------

  datatype Store = History | Live | MissionQueue | AntiCheatQueue

  predicate Takes<J>(q: Queue<J>, up: bool, released: set<JobId>, id: JobId) {
    up && (id in released || id !in q.held)
  }

  /** The data of a delivery reach a store. */
  predicate Reaches(store: Store, s: Pipeline, d: Delivery) {
    match store
    case History => OutcomeOf(s, d).SnapshotFailed? || OutcomeOf(s, d).Ingested?
    case Live => OutcomeOf(s, d).Ingested?
    case MissionQueue => OutcomeOf(s, d).Ingested? &&
        Takes(s.ticks, d.io.missionQueueUp, d.io.ticksReleased, JobIdOf(d.job))
    case AntiCheatQueue =>
      OutcomeOf(s, d).Ingested? && Takes(s.inspections, d.io.antiCheatQueueUp, d.io.inspectionsReleased, JobIdOf(d.job))
  }

  /** The deliveries whose data reached a store, in order. */
  function Reached(ds: seq<Delivery>, store: Store): seq<Delivery> {
    if ds == [] then []
    else
      var init, last := ds[..|ds| - 1], ds[|ds| - 1];
      Reached(init, store) + if Reaches(store, Run(init), last) then [last] else []
  }

  /** The time every store is given: the client's if it is within five minutes of the receive time, else the latter. */
  predicate IsServerTime(j: IngestJob, at: int) {
    at == if j.receivedAt - 300_000 <= j.recordedAt <= j.receivedAt + 300_000 then j.recordedAt else j.receivedAt
  }

  predicate RowShows(r: HistoryRow, j: IngestJob) {
    && r.operatorId == j.operatorId && r.eventId == j.eventId && r.reading == j.reading
    && r.clientEventId == j.clientEventId && IsServerTime(j, r.recordedAt)
  }

  predicate TickShows(t: MissionEngine.Job, j: IngestJob) {
    && t.operatorId == j.operatorId && t.eventId == j.eventId && t.at == j.reading.at
    && IsServerTime(j, t.recordedAt)
  }

  predicate InspectionShows(x: InspectJob, j: IngestJob) {
    && x.operatorId == j.operatorId && x.eventId == j.eventId && x.at == j.reading.at
    && x.clientSpeedMps == j.reading.speedMps && x.accuracyM == j.reading.accuracyM
    && IsServerTime(j, x.recordedAt)
  }

  predicate SnapshotShows(x: Snapshot, j: IngestJob) {
    && x.operatorId == j.operatorId && x.eventId == j.eventId && x.reading == j.reading
    && x.receivedAt == j.receivedAt && IsServerTime(j, x.recordedAt)
  }

  /**
   * Every store holds the same clamped time for a job: the history and both
   * queues show, column by column, the jobs that reached them, in order.
   */
  lemma {:induction false} StoresAgree(ds: seq<Delivery>)
    ensures var s := Run(ds);
        var h, m, a := Reached(ds, History), Reached(ds, MissionQueue), Reached(ds, AntiCheatQueue);
            && |s.history| == |h| && (forall k :: 0 <= k < |h| ==> RowShows(s.history[k], h[k].job))
            && |s.ticks.jobs| == |m| && (forall k :: 0 <= k < |m| ==> TickShows(s.ticks.jobs[k], m[k].job))
            && |s.inspections.jobs| == |a|
            && (forall k :: 0 <= k < |a| ==> InspectionShows(s.inspections.jobs[k], a[k].job))
    decreases |ds|
  {
    if ds != [] {
      StoresAgree(ds[..|ds| - 1]);
    }
  }

  function LastFor(reached: seq<Delivery>, op: Id): Option<Delivery> {
    if reached == [] then None
    else if reached[|reached| - 1].job.operatorId == op then Some(reached[|reached| - 1])
    else LastFor(reached[..|reached| - 1], op)
  }

  /**
   * A reader sees the snapshot of an operator's last job that got that far,
   * for 60 s after its delivery and no longer.
   */
  lemma {:induction false} SnapshotIsLatest(ds: seq<Delivery>, op: Id, now: int)
    ensures var last := LastFor(Reached(ds, Live), op);
            if last.Some? && now < last.value.now + 60_000 then
              LiveAt(Run(ds), op, now).Some? && SnapshotShows(LiveAt(Run(ds), op, now).value, last.value.job)
            else LiveAt(Run(ds), op, now) == None
    decreases |ds|
  {
    if ds != [] {
      var init, last := ds[..|ds| - 1], ds[|ds| - 1];
      SnapshotIsLatest(init, op, now);
      var l := Reached(init, Live);
      assert (l + [last])[..|l|] == l;
      assert l + [] == l;
    }
  }

  // ---------- Job ids ----------

  /** A job with this id was taken at some time. */
  predicate Queued(jobs: seq<MissionEngine.Job>, id: JobId) {
    exists k :: 0 <= k < |jobs| && IdOfTick(jobs[k]) == id
  }

  lemma QueuedSnoc(jobs: seq<MissionEngine.Job>, job: MissionEngine.Job, id: JobId)
    ensures Queued(jobs + [job], id) <==> Queued(jobs, id) || IdOfTick(job) == id
  {
    if Queued(jobs, id) {
      var k :| 0 <= k < |jobs| && IdOfTick(jobs[k]) == id;
      assert (jobs + [job])[k] == jobs[k];
    }
    if IdOfTick(job) == id {
      assert (jobs + [job])[|jobs|] == job;
    }
  }

  lemma OfferedIds(q: Queue<MissionEngine.Job>, d: Delivery, id: JobId)
    ensures var r := Offered(q, d.io.missionQueueUp, d.io.ticksReleased, JobIdOf(d.job), TickOf(d.job));
            && (Queued(q.jobs, id) ==> Queued(r.jobs, id))
            && (id in r.held ==> id in q.held || Queued(r.jobs, id))
            && (d.io.missionQueueUp ==> JobIdOf(d.job) in r.held)
  {
    QueuedSnoc(q.jobs, TickOf(d.job), id);
  }

  lemma {:induction false} HeldIdsAreQueued(ds: seq<Delivery>, id: JobId)
    ensures id in Run(ds).ticks.held ==> Queued(Run(ds).ticks.jobs, id)
    decreases |ds|
  {
    if ds != [] {
      var init, last := ds[..|ds| - 1], ds[|ds| - 1];
      HeldIdsAreQueued(init, id);
      OfferedIds(Run(init).ticks, last, id);
    }
  }

  /**
   * Whenever the mission queue was up, the time of an ingested position is
   * queued for its operator, by it or by another.
   */
  lemma IngestedTimesAreQueued(ds: seq<Delivery>, j: nat)
    requires j < |ds| && OutcomeOf(Run(ds[..j]), ds[j]) == Ingested && ds[j].io.missionQueueUp
    ensures exists k :: 0 <= k < |Run(ds).ticks.jobs| && QueuedFor(Run(ds).ticks.jobs[k], ds[j].job)
  {
    IngestedIdsAreQueued(ds, j);
    var jobs := Run(ds).ticks.jobs;
    var k :| 0 <= k < |jobs| && IdOfTick(jobs[k]) == JobIdOf(ds[j].job);
    assert QueuedFor(jobs[k], ds[j].job);
  }

  predicate QueuedFor(t: MissionEngine.Job, j: IngestJob) {
    t.eventId == j.eventId && t.operatorId == j.operatorId && IsServerTime(j, t.recordedAt)
  }

  lemma {:induction false} IngestedIdsAreQueued(ds: seq<Delivery>, j: nat)
    requires j < |ds| && OutcomeOf(Run(ds[..j]), ds[j]) == Ingested && ds[j].io.missionQueueUp
    ensures Queued(Run(ds).ticks.jobs, JobIdOf(ds[j].job))
    decreases |ds|
  {
    var n := |ds| - 1;
    var init := ds[..n];
    OfferedIds(Run(init).ticks, ds[n], JobIdOf(ds[j].job));
    if j < n {
      assert init[..j] == ds[..j];
      IngestedIdsAreQueued(init, j);
    } else {
      HeldIdsAreQueued(init, JobIdOf(ds[j].job));
    }
  }

  /** Every job is held, and no two have the same event, operator and time. */
  predicate HeldOnce(q: Queue<MissionEngine.Job>) {
    && (forall k :: 0 <= k < |q.jobs| ==> IdOfTick(q.jobs[k]) in q.held)
    && (forall k, l :: 0 <= k < l < |q.jobs| ==> IdOfTick(q.jobs[k]) != IdOfTick(q.jobs[l]))
  }

  lemma OfferedOnce(q: Queue<MissionEngine.Job>, d: Delivery)
    requires HeldOnce(q) && d.io.ticksReleased == {}
    ensures HeldOnce(Offered(q, d.io.missionQueueUp, d.io.ticksReleased, JobIdOf(d.job), TickOf(d.job)))
  {
    var r := Offered(q, d.io.missionQueueUp, d.io.ticksReleased, JobIdOf(d.job), TickOf(d.job));
    assert IdOfTick(TickOf(d.job)) == JobIdOf(d.job);
    assert forall k :: 0 <= k < |q.jobs| ==> r.jobs[k] == q.jobs[k];
  }

  /** As long as the queue lets go of no id, no time of an operator is queued twice. */
  lemma {:induction false} HeldIdsComeOnce(ds: seq<Delivery>)
    requires forall j :: 0 <= j < |ds| ==> ds[j].io.ticksReleased == {}
    ensures HeldOnce(Run(ds).ticks)
    decreases |ds|
  {
    if ds != [] {
      var n := |ds| - 1;
      HeldIdsComeOnce(ds[..n]);
      OfferedOnce(Run(ds[..n]).ticks, ds[n]);
    }
  }

  // ---------- Which positions are kept ----------

  /** Some delivery of the client event reached the store. */
  predicate Carried(ds: seq<Delivery>, store: Store, id: Id) {
    SomeOf(Reached(ds, store), id)
  }

  predicate SomeOf(ds: seq<Delivery>, id: Id) {
    exists k :: 0 <= k < |ds| && ds[k].job.clientEventId == id
  }

  lemma SomeOfSnoc(ds: seq<Delivery>, d: Delivery, id: Id)
    ensures SomeOf(ds + [d], id) <==> SomeOf(ds, id) || d.job.clientEventId == id
  {
    if SomeOf(ds, id) {
      var k :| 0 <= k < |ds| && ds[k].job.clientEventId == id;
      assert (ds + [d])[k] == ds[k];
    }
    if d.job.clientEventId == id {
      assert (ds + [d])[|ds|] == d;
    }
  }

  /** Delivery j of the client event reached the store. */
  predicate Delivers(ds: seq<Delivery>, store: Store, id: Id, j: nat)
    requires j < |ds|
  {
    ds[j].job.clientEventId == id && ReachesAt(ds, store, j)
  }

  predicate ReachesAt(ds: seq<Delivery>, store: Store, j: nat)
    requires j < |ds|
  {
    Reaches(store, Run(ds[..j]), ds[j])
  }

  /** A store has something of a client event exactly when some delivery of it got that far. */
  lemma {:induction false} CarriedExactlyWhen(ds: seq<Delivery>, store: Store, id: Id)
    ensures Carried(ds, store, id) <==> exists j :: 0 <= j < |ds| && Delivers(ds, store, id, j)
    decreases |ds|
  {
    if ds != [] {
      var n := |ds| - 1;
      var init := ds[..n];
      CarriedExactlyWhen(init, store, id);
      SomeOfSnoc(Reached(init, store), ds[n], id);
      assert Reached(init, store) + [] == Reached(init, store);
      assert Carried(ds, store, id) <==> Carried(init, store, id) || Delivers(ds, store, id, n);
      forall j | 0 <= j < n ensures Delivers(ds, store, id, j) == Delivers(init, store, id, j) {
        assert init[..j] == ds[..j];
      }
    }
  }

  predicate StoredRow(ds: seq<Delivery>, id: Id) {
    exists r :: r in Run(ds).history && r.clientEventId == id
  }

  /**
   * Over every run, the history has a row of a client event exactly when some
   * accepted delivery of it found the history up.
   */
  lemma StoredExactlyWhen(ds: seq<Delivery>, id: Id)
    ensures StoredRow(ds, id) <==>
            exists j :: 0 <= j < |ds| && Accepted(ds, j) && ds[j].job.clientEventId == id && ds[j].io.historyUp
  {
    StoresAgree(ds);
    CarriedExactlyWhen(ds, History, id);
    var h := Reached(ds, History);
    if Carried(ds, History, id) {
      var k :| 0 <= k < |h| && h[k].job.clientEventId == id;
      assert Run(ds).history[k].clientEventId == id;
      var j :| 0 <= j < |ds| && Delivers(ds, History, id, j);
      assert Accepted(ds, j) && ds[j].io.historyUp;
    }
    if r :| r in Run(ds).history && r.clientEventId == id {
      var k :| 0 <= k < |Run(ds).history| && Run(ds).history[k] == r;
      assert h[k].job.clientEventId == id;
    }
    if j :| 0 <= j < |ds| && Accepted(ds, j) && ds[j].job.clientEventId == id && ds[j].io.historyUp {
      assert Delivers(ds, History, id, j);
    }
  }

  /** Delivery i is the first of its client event, and all others come before its key expires. */
  predicate RetriedInWindow(ds: seq<Delivery>, i: nat)
    requires i < |ds|
  {
    && (forall j :: 0 <= j < i ==> ds[j].job.clientEventId != ds[i].job.clientEventId)
    && (forall j :: 0 <= j < |ds| && ds[j].job.clientEventId == ds[i].job.clientEventId ==>
        ds[j].now < ds[i].now + 300_000)
  }

  lemma OnlyFirstIsAccepted(ds: seq<Delivery>, i: nat, j: nat)
    requires InOrder(ds) && i < |ds| && RetriedInWindow(ds, i)
    requires j < |ds| && ds[j].job.clientEventId == ds[i].job.clientEventId
    ensures Accepted(ds, j) <==> j == i
  {
    AcceptedIffNotBlocked(ds, i);
    if i < j {
      AcceptedIffNotBlocked(ds, j);
      assert Blocks(ds, i, j);
    }
  }

  /**
   * When all deliveries of a client event come within 300 s of the first, only
   * the first counts: a failed write is not made up for by any retry. The
   * position is stored exactly when that delivery found the history up, shown
   * live exactly when it found the snapshot store up as well, and queued
   * exactly when it then found the queue up and its id free.
   */
  lemma KeptIffFirstSucceeds(ds: seq<Delivery>, i: nat)
    requires InOrder(ds) && i < |ds| && RetriedInWindow(ds, i)
    ensures var id, io, s := ds[i].job.clientEventId, ds[i].io, Run(ds[..i]);
            && (StoredRow(ds, id) <==> io.historyUp)
            && (Carried(ds, Live, id) <==> io.historyUp && io.snapshotUp)
            && (Carried(ds, MissionQueue, id) <==>
                io.historyUp && io.snapshotUp &&
                    Takes(s.ticks, io.missionQueueUp, io.ticksReleased, JobIdOf(ds[i].job)))
            && (Carried(ds, AntiCheatQueue, id) <==>
                io.historyUp && io.snapshotUp && Takes(s.inspections, io.antiCheatQueueUp, io.inspectionsReleased,
                    JobIdOf(ds[i].job)))
  {
    var id := ds[i].job.clientEventId;
    forall j | 0 <= j < |ds| && ds[j].job.clientEventId == id ensures Accepted(ds, j) <==> j == i {
      OnlyFirstIsAccepted(ds, i, j);
    }
    StoredExactlyWhen(ds, id);
    assert Accepted(ds, i);
    FirstAlone(ds, i, Live);
    FirstAlone(ds, i, MissionQueue);
    FirstAlone(ds, i, AntiCheatQueue);
  }

  lemma FirstAlone(ds: seq<Delivery>, i: nat, store: Store)
    requires i < |ds|
    requires forall j :: 0 <= j < |ds| && ds[j].job.clientEventId == ds[i].job.clientEventId ==>
        (Accepted(ds, j) <==> j == i)
    ensures Carried(ds, store, ds[i].job.clientEventId) <==> ReachesAt(ds, store, i)
  {
    CarriedExactlyWhen(ds, store, ds[i].job.clientEventId);
    if ReachesAt(ds, store, i) {
      assert Delivers(ds, store, ds[i].job.clientEventId, i);
    }
    forall j | 0 <= j < |ds| && Delivers(ds, store, ds[i].job.clientEventId, j) ensures j == i {
      assert Accepted(ds, j);
    }
  }

  /** A position that finds the history down, and its retry a second later with everything up: it is never stored. */
  lemma RetryIsSkipped(job: IngestJob)
    ensures var down, up := Io(false, true, true, true, {}, {}), Io(true, true, true, true, {}, {});
            var ds := [Delivery(job, 0, down), Delivery(job, 1000, up)];
            OutcomeOf(Run(ds[..1]), ds[1]) == Duplicate && Run(ds).history == [] && Run(ds).ticks.jobs == []
  {
    var down, up := Io(false, true, true, true, {}, {}), Io(true, true, true, true, {}, {});
    var ds := [Delivery(job, 0, down), Delivery(job, 1000, up)];
    assert ds[..1] == [ds[0]] && ds[..1][..0] == [] && ds[..2] == ds;
    assert Run(ds[..1]) == Deliver(EMPTY, ds[0]);
    assert Run(ds) == Deliver(Run(ds[..1]), ds[1]);
  }

  // ---------- Duplicates ----------

  /** The deliveries whose position in the run is not in `drop`. */
  function Without(ds: seq<Delivery>, drop: set<nat>): seq<Delivery> {
    if ds == [] then []
    else
      var n := |ds| - 1;
      Without(ds[..n], drop) + if n in drop then [] else [ds[n]]
  }

  lemma {:induction false} RejectedCanBeRemoved(ds: seq<Delivery>, drop: set<nat>)
    requires forall i :: i in drop && i < |ds| ==> !Accepted(ds, i)
    ensures Run(Without(ds, drop)) == Run(ds)
    decreases |ds|
  {
    if ds != [] {
      var n := |ds| - 1;
      var init := ds[..n];
      forall k | 0 <= k < n ensures Accepted(init, k) == Accepted(ds, k) {
        PrefixAccepts(ds, n, k);
      }
      RejectedCanBeRemoved(init, drop);
      var w := Without(ds, drop);
      if n !in drop {
        assert w[..|w| - 1] == Without(init, drop);
      } else {
        assert !Accepted(ds, n) && w == Without(init, drop);
      }
    }
  }

  /**
   * End to end: removing (or adding) any number of duplicates inside the
   * window leaves every store, and the mission progress that one worker
   * computes from the queue in order, as they were.
   */
  lemma DuplicatesChangeNoProgress(ds: seq<Delivery>, drop: set<nat>,
                                   p: map<MissionEngine.Key, MissionEngine.Row>, b: MissionEngine.Board)
    requires InOrder(ds)
    requires forall j :: j in drop && j < |ds| ==> exists i :: 0 <= i < j && Blocks(ds, i, j)
    ensures Run(Without(ds, drop)) == Run(ds)
    ensures MissionRuns.Run(p, b, Run(Without(ds, drop)).ticks.jobs) == MissionRuns.Run(p, b, Run(ds).ticks.jobs)
  {
    forall j | j in drop && j < |ds| ensures !Accepted(ds, j) {
      AcceptedIffNotBlocked(ds, j);
    }
    RejectedCanBeRemoved(ds, drop);
  }
}
