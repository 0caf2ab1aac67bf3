/** Properties of the mission engine over whole runs of queued positions. */
module MissionRuns {
  import opened Common
  import opened MissionEngine

  /** The progress table after a run of complete deliveries, oldest first. */
  function Run(p: map<Key, Row>, b: Board, jobs: seq<Job>): map<Key, Row> {
    if jobs == [] then p
    else
      var last := jobs[|jobs| - 1];
      After(Run(p, b, jobs[..|jobs| - 1]), b, LiveMissions(b.missions, last.eventId), last)
  }

  // ---------- Crash and retry ----------

  lemma UpsertTwice(existing: Option<Row>, d: Decision)
    ensures UpsertedRow(Some(UpsertedRow(existing, d)), d) == UpsertedRow(existing, d)
  {
  }

  lemma OtherOperatorsDoNotTouch(p: map<Key, Row>, b: Board, others: seq<Job>, k: Key)
    requires forall j :: j in others ==> j.operatorId != k.1
    ensures Lookup(Run(p, b, others), k) == Lookup(p, k)
    decreases |others|
  {
    if others != [] {
      var init, last := others[..|others| - 1], others[|others| - 1];
      OtherOperatorsDoNotTouch(p, b, init, k);
      AfterAt(Run(p, b, init), b, LiveMissions(b.missions, last.eventId), last, k);
    }
  }

  /** A row of some other operator goes through the same run whatever the job did. */
  lemma {:induction false} OnlyOwnRowMatters(p: map<Key, Row>, q: map<Key, Row>, b: Board, jobs: seq<Job>, k: Key)
    requires Lookup(p, k) == Lookup(q, k)
    ensures Lookup(Run(p, b, jobs), k) == Lookup(Run(q, b, jobs), k)
    decreases |jobs|
  {
    if jobs != [] {
      var init, last := jobs[..|jobs| - 1], jobs[|jobs| - 1];
      OnlyOwnRowMatters(p, q, b, init, k);
      AfterAt(Run(p, b, init), b, LiveMissions(b.missions, last.eventId), last, k);
      AfterAt(Run(q, b, init), b, LiveMissions(b.missions, last.eventId), last, k);
    }
  }

  /**
   * A delivery that died after handling any subset `part` of its missions, then
   * any positions of other operators, then the full retry: the rows are those
   * of one complete delivery followed by the same other positions.
   */
  lemma {:induction false} OneRetryConverges(p: map<Key, Row>, b: Board, part: map<Id, Mission>, job: Job,
      others: seq<Job>)
    requires part.Items <= LiveMissions(b.missions, job.eventId).Items
    requires forall j :: j in others ==> j.operatorId != job.operatorId
    ensures var full := LiveMissions(b.missions, job.eventId);
            After(Run(After(p, b, part, job), b, others), b, full, job) == Run(After(p, b, full, job), b, others)
  {
    var full := LiveMissions(b.missions, job.eventId);
    var crashed := After(p, b, part, job);
    var left := After(Run(crashed, b, others), b, full, job);
    var right := Run(After(p, b, full, job), b, others);
    forall k ensures Lookup(left, k) == Lookup(right, k) {
      forall id | id in part ensures id in full && full[id] == part[id] {
        assert (id, part[id]) in part.Items;
      }
      AfterAt(Run(crashed, b, others), b, full, job, k);
      AfterAt(p, b, part, job, k);
      AfterAt(p, b, full, job, k);
      if k.1 == job.operatorId {
        OtherOperatorsDoNotTouch(crashed, b, others, k);
        OtherOperatorsDoNotTouch(After(p, b, full, job), b, others, k);
        if Touches(b, full, job, k) {
          UpsertTwice(Lookup(p, k), DirectDecision(b, full[k.0], job).value);
        }
      } else {
        OnlyOwnRowMatters(crashed, After(p, b, full, job), b, others, k);
      }
    }
    SameLookups(left, right);
  }

  /**
   * A failed attempt at a delivery: the missions it got through, and the
   * positions processed before the next attempt.
   */
  datatype Attempt = Attempt(part: map<Id, Mission>, others: seq<Job>)

  /** Any number of failed attempts, oldest first. */
  function Attempted(p: map<Key, Row>, b: Board, job: Job, attempts: seq<Attempt>): map<Key, Row> {
    if attempts == [] then p
    else
      var last := attempts[|attempts| - 1];
      Run(After(Attempted(p, b, job, attempts[..|attempts| - 1]), b, last.part, job), b, last.others)
  }

  /** All positions processed between the attempts. */
  function Between(attempts: seq<Attempt>): seq<Job> {
    if attempts == [] then [] else Between(attempts[..|attempts| - 1]) + attempts[|attempts| - 1].others
  }

  lemma {:induction false} RunAppend(p: map<Key, Row>, b: Board, a: seq<Job>, c: seq<Job>)
    ensures Run(p, b, a + c) == Run(Run(p, b, a), b, c)
    decreases |c|
  {
    if c == [] {
      assert a + c == a;
    } else {
      var n := |c| - 1;
      assert (a + c)[..|a + c| - 1] == a + c[..n];
      RunAppend(p, b, a, c[..n]);
    }
  }

  /**
   * Any number of failed attempts, each after any subset of the missions and
   * with any positions of other operators before the next one, and then a full
   * attempt: the rows are those of one complete delivery followed by all those
   * other positions.
   */
  lemma {:induction false} RetryConverges(p: map<Key, Row>, b: Board, job: Job, attempts: seq<Attempt>)
    requires forall i :: 0 <= i < |attempts| ==> attempts[i].part.Items <= LiveMissions(b.missions, job.eventId).Items
    requires forall i, j :: 0 <= i < |attempts| && j in attempts[i].others ==> j.operatorId != job.operatorId
    ensures var full := LiveMissions(b.missions, job.eventId);
            After(Attempted(p, b, job, attempts), b, full, job) == Run(After(p, b, full, job), b, Between(attempts))
    decreases |attempts|
  {
    if attempts != [] {
      var init, last := attempts[..|attempts| - 1], attempts[|attempts| - 1];
      var full := LiveMissions(b.missions, job.eventId);
      OneRetryConverges(Attempted(p, b, job, init), b, last.part, job, last.others);
      RetryConverges(p, b, job, init);
      RunAppend(After(p, b, full, job), b, Between(init), last.others);
    }
  }

  // ---------- Cumulative-time missions ----------

  datatype Tick = Tick(inside: bool, at: int)

  /** The row a sequence of ticks leaves, starting from no row. */
  function FoldTicks(ticks: seq<Tick>, targetMs: int): Option<Row> {
    if ticks == [] then None
    else
      var last := ticks[|ticks| - 1];
      Some(UpsertedRow(FoldTicks(ticks[..|ticks| - 1], targetMs), CumulativeTime(last.inside, last.at, targetMs)))
  }

  /** Time between ticks i and i+1 that counts: both inside, and time advanced. */
  function Gap(ticks: seq<Tick>, i: nat): int
    requires i + 1 < |ticks|
  {
    var d := ticks[i + 1].at - ticks[i].at;
    if ticks[i].inside && ticks[i + 1].inside && d > 0 then d else 0
  }

  /** Sum of Gap over all adjacent pairs. */
  function TimeInside(ticks: seq<Tick>): int {
    if |ticks| < 2 then 0 else TimeInside(ticks[..|ticks| - 1]) + Gap(ticks, |ticks| - 2)
  }

  /** Whether the target is met once tick k has been processed. */
  predicate MetAt(ticks: seq<Tick>, targetMs: int, k: nat)
    requires k < |ticks|
  {
    TimeInside(ticks[..k + 1]) >= targetMs
  }

  /**
   * The closed form: the accumulator is the time inside, and the row is
   * COMPLETED, and stamped, exactly when the target is met. Ticks may come in
   * any time order.
   */
  lemma {:induction false} CumulativeClosedForm(ticks: seq<Tick>, targetMs: int)
    requires ticks != []
    ensures var row := FoldTicks(ticks, targetMs).value; var last := ticks[|ticks| - 1];
            && row.progress == CaptureLike(TimeInside(ticks), if last.inside then Some(last.at) else None)
            && row.state == (if TimeInside(ticks) >= targetMs then COMPLETED else IN_PROGRESS)
            && (row.completedAt.Some? <==> TimeInside(ticks) >= targetMs)
    decreases |ticks|
  {
    if |ticks| > 1 {
      CumulativeClosedForm(ticks[..|ticks| - 1], targetMs);
    }
  }

  /** The stamp is the time of the first tick that met the target, for good. */
  lemma {:induction false} StampedByFirstTick(ticks: seq<Tick>, targetMs: int, k: nat)
    requires k < |ticks| && MetAt(ticks, targetMs, k) && (k > 0 ==> !MetAt(ticks, targetMs, k - 1))
    ensures FoldTicks(ticks, targetMs).value.completedAt == Some(ticks[k].at)
    decreases |ticks|
  {
    var n := |ticks|;
    var init := ticks[..n - 1];
    assert ticks[..n] == ticks;
    if k < n - 1 {
      assert init[..k + 1] == ticks[..k + 1] && (k > 0 ==> init[..k] == ticks[..k]);
      StampedByFirstTick(init, targetMs, k);
    } else {
      CumulativeClosedForm(ticks, targetMs);
      if k > 0 {
        CumulativeClosedForm(init, targetMs);
        assert ticks[..k - 1 + 1] == init;
      }
    }
  }

  /** If time never goes back, no more is accumulated than passed on the clock. */
  lemma {:induction false} NoMoreThanElapsed(ticks: seq<Tick>)
    requires ticks != [] && forall i, j :: 0 <= i <= j < |ticks| ==> ticks[i].at <= ticks[j].at
    ensures 0 <= TimeInside(ticks) <= ticks[|ticks| - 1].at - ticks[0].at
    decreases |ticks|
  {
    if |ticks| > 1 {
      NoMoreThanElapsed(ticks[..|ticks| - 1]);
    }
  }

  lemma AppendTick(ticks: seq<Tick>, last: Tick, targetMs: int)
    ensures FoldTicks(ticks + [last], targetMs) ==
            Some(UpsertedRow(FoldTicks(ticks, targetMs), CumulativeTime(last.inside, last.at, targetMs)))
  {
    assert (ticks + [last])[..|ticks|] == ticks;
  }

  // ---------- The engine follows the closed forms ----------

  predicate Concerns(m: Mission, op: Id, job: Job) {
    job.operatorId == op && job.eventId == m.eventId
  }

  predicate Qualifies(b: Board, m: Mission, op: Id, job: Job) {
    Concerns(m, op, job) && DirectDecision(b, m, job).Some?
  }

  /** The ticks one mission and operator get out of a run of jobs. */
  function TicksOf(b: Board, m: Mission, op: Id, jobs: seq<Job>): seq<Tick>
    requires m.zoneId.Some?
  {
    if jobs == [] then []
    else
      var last := jobs[|jobs| - 1];
      var before := TicksOf(b, m, op, jobs[..|jobs| - 1]);
      if last.operatorId == op && last.eventId == m.eventId then
        before + [Tick(m.zoneId.value in b.zones && b.covers(m.zoneId.value, last.at), last.recordedAt)]
      else before
  }

  /** What one job does to any row: only a mission that is neither completed nor cancelled writes one. */
  lemma RowAfterJob(p: map<Key, Row>, b: Board, mid: Id, op: Id, job: Job)
    ensures Lookup(After(p, b, LiveMissions(b.missions, job.eventId), job), (mid, op)) ==
            if mid in b.missions && b.missions[mid].status in {MissionPending, MissionActive} &&
               Qualifies(b, b.missions[mid], op, job)
            then Some(UpsertedRow(Lookup(p, (mid, op)), DirectDecision(b, b.missions[mid], job).value))
            else Lookup(p, (mid, op))
  {
    AfterAt(p, b, LiveMissions(b.missions, job.eventId), job, (mid, op));
  }

  /** Over any run, a cumulative-time row is the fold of its own ticks alone. */
  lemma {:induction false} RunFoldsItsTicks(b: Board, mid: Id, op: Id, jobs: seq<Job>)
    requires mid in b.missions && IsLive(b.missions[mid]) && IsCumulative(b.missions[mid]) &&
        b.missions[mid].zoneId.Some?
    ensures var m := b.missions[mid];
            Lookup(Run(map[], b, jobs), (mid, op)) == FoldTicks(TicksOf(b, m, op, jobs), TargetMs(m.config))
    decreases |jobs|
  {
    if jobs != [] {
      var m := b.missions[mid];
      var init, last := jobs[..|jobs| - 1], jobs[|jobs| - 1];
      RunFoldsItsTicks(b, mid, op, init);
      RowAfterJob(Run(map[], b, init), b, mid, op, last);
      if Concerns(m, op, last) {
        var before := TicksOf(b, m, op, init);
        AppendTick(before, Tick(Inside(b, m.zoneId.value, last.at), last.recordedAt), TargetMs(m.config));
      }
    }
  }

  /**
   * The row of a CAPTURE, HOLD or DEFEND mission after any run, in the
   * mission's own numbers: there is one as soon as the operator reported a
   * position of the event; it is COMPLETED and stamped exactly when the time
   * inside is at least the threshold, or else the duration, or else zero
   * seconds; and the stamp is the time of the first tick that made it so.
   */
  lemma CumulativeRowExactly(b: Board, mid: Id, op: Id, jobs: seq<Job>, k: nat)
    requires mid in b.missions && b.missions[mid].status in {MissionPending, MissionActive} &&
        b.missions[mid].kind in {CAPTURE, HOLD, DEFEND} && b.missions[mid].zoneId.Some?
    ensures var m := b.missions[mid];
            var seconds := if m.config.thresholdSeconds.Some? then m.config.thresholdSeconds.value
                           else if m.config.durationSeconds.Some? then m.config.durationSeconds.value else 0;
            var ticks := TicksOf(b, m, op, jobs);
            var row := Lookup(Run(map[], b, jobs), (mid, op));
            && (row.Some? <==> ticks != [])
            && (row.Some? ==>
                  && row.value.state == (if TimeInside(ticks) >= 1000 * seconds then COMPLETED else IN_PROGRESS)
                  && (row.value.completedAt.Some? <==> TimeInside(ticks) >= 1000 * seconds)
                  && row.value.progress.CaptureLike?
                  && row.value.progress.accumulatedMs == TimeInside(ticks))
            && (k < |ticks| && TimeInside(ticks[..k + 1]) >= 1000 * seconds &&
                (k > 0 ==> TimeInside(ticks[..k]) < 1000 * seconds) ==>
                  row.Some? && row.value.completedAt == Some(ticks[k].at))
  {
    var m := b.missions[mid];
    var ticks := TicksOf(b, m, op, jobs);
    var target := TargetMs(m.config);
    RunFoldsItsTicks(b, mid, op, jobs);
    if ticks != [] {
      CumulativeClosedForm(ticks, target);
    }
    if k < |ticks| && MetAt(ticks, target, k) && (k > 0 ==> TimeInside(ticks[..k]) < target) {
      assert k > 0 ==> ticks[..k - 1 + 1] == ticks[..k];
      StampedByFirstTick(ticks, target, k);
    }
  }

  /** Who qualifies, for every type of mission. */
  lemma QualifiesExactlyWhen(b: Board, m: Mission, op: Id, job: Job)
    ensures var there := m.zoneId.Some? && m.zoneId.value in b.zones && b.covers(m.zoneId.value, job.at);
            Qualifies(b, m, op, job) <==>
              && job.operatorId == op && job.eventId == m.eventId
              && ((m.kind == CHECKPOINT && there)
                  || (m.kind in {CAPTURE, HOLD, DEFEND} && m.zoneId.Some?)
                  || (m.kind == TIME && m.config.windowStart <= job.recordedAt <= m.config.windowEnd &&
                      (m.zoneId.None? || there)))
  {
  }

  lemma DiscreteRow(existing: Option<Row>, b: Board, m: Mission, job: Job)
    requires !IsCumulative(m) && DirectDecision(b, m, job).Some?
    ensures var row := UpsertedRow(existing, DirectDecision(b, m, job).value);
            if existing.Some? && existing.value.state == COMPLETED then row == existing.value
            else row == Row(COMPLETED, if m.kind == TIME then FirstHit(job.recordedAt) else Empty, Some(job.recordedAt))
  {
  }

  /** The first job of the run that qualified, or the length of the run. */
  function FirstQualifying(b: Board, m: Mission, op: Id, jobs: seq<Job>): (k: nat)
    ensures k <= |jobs|
    ensures k < |jobs| ==> Qualifies(b, m, op, jobs[k])
    ensures forall j :: 0 <= j < k ==> !Qualifies(b, m, op, jobs[j])
  {
    if jobs == [] then 0
    else
      var n := |jobs| - 1;
      var k := FirstQualifying(b, m, op, jobs[..n]);
      if k < n || Qualifies(b, m, op, jobs[n]) then k else n + 1
  }

  /**
   * A CHECKPOINT or TIME row exists exactly when some job of the run qualified;
   * it is COMPLETED, and stamped with the time of the first such job, which a
   * TIME row also keeps as its hit.
   */
  lemma {:induction false} DiscreteClosedForm(b: Board, mid: Id, op: Id, jobs: seq<Job>)
    requires mid in b.missions && b.missions[mid].status in {MissionPending, MissionActive}
    requires b.missions[mid].kind !in {CAPTURE, HOLD, DEFEND}
    ensures var row := Lookup(Run(map[], b, jobs), (mid, op)); var k := FirstQualifying(b, b.missions[mid], op, jobs);
            if k == |jobs| then row == None
            else
              var at := jobs[k].recordedAt;
              row == Some(Row(COMPLETED, if b.missions[mid].kind == TIME then FirstHit(at) else Empty, Some(at)))
    decreases |jobs|
  {
    if jobs != [] {
      var m := b.missions[mid];
      var init, last := jobs[..|jobs| - 1], jobs[|jobs| - 1];
      DiscreteClosedForm(b, mid, op, init);
      RowAfterJob(Run(map[], b, init), b, mid, op, last);
      if Qualifies(b, m, op, last) {
        DiscreteRow(Lookup(Run(map[], b, init), (mid, op)), b, m, last);
      }
    }
  }

  /**
   * From any table: a COMPLETED row stays COMPLETED through any run, and once
   * it is stamped the stamp never changes.
   */
  lemma {:induction false} CompletionIsAbsorbing(p: map<Key, Row>, b: Board, jobs: seq<Job>, k: Key)
    requires k in p && p[k].state == COMPLETED
    ensures k in Run(p, b, jobs) && Run(p, b, jobs)[k].state == COMPLETED
    ensures p[k].completedAt.Some? ==> Run(p, b, jobs)[k].completedAt == p[k].completedAt
    decreases |jobs|
  {
    if jobs != [] {
      var init, last := jobs[..|jobs| - 1], jobs[|jobs| - 1];
      CompletionIsAbsorbing(p, b, init, k);
      AfterAt(Run(p, b, init), b, LiveMissions(b.missions, last.eventId), last, k);
    }
  }

  predicate Idle(m: Mission) {
    || m.status == MissionCompleted || m.status == MissionCancelled
    || m.kind == SQUAD || m.kind == FACTION
    || (m.kind != TIME && m.zoneId.None?)
  }

  /** Rows no run ever writes: unknown or closed missions, SQUAD and FACTION, and missions that lack their zone. */
  lemma {:induction false} NeverTouched(p: map<Key, Row>, b: Board, mid: Id, op: Id, jobs: seq<Job>)
    requires mid in b.missions ==> Idle(b.missions[mid])
    ensures Lookup(Run(p, b, jobs), (mid, op)) == Lookup(p, (mid, op))
    decreases |jobs|
  {
    if jobs != [] {
      var init, last := jobs[..|jobs| - 1], jobs[|jobs| - 1];
      NeverTouched(p, b, mid, op, init);
      RowAfterJob(Run(p, b, init), b, mid, op, last);
      if mid in b.missions {
        QualifiesExactlyWhen(b, b.missions[mid], op, last);
      }
    }
  }

  /** A run during which missions and zones are edited: each job meets the board of its time. */
  function RunEdited(p: map<Key, Row>, steps: seq<(Board, Job)>): map<Key, Row> {
    if steps == [] then p
    else
      var (b, job) := steps[|steps| - 1];
      After(RunEdited(p, steps[..|steps| - 1]), b, LiveMissions(b.missions, job.eventId), job)
  }

  /** Whatever is edited in between, the engine never takes a completion back or moves its time. */
  lemma {:induction false} CompletionSurvivesEdits(p: map<Key, Row>, steps: seq<(Board, Job)>, k: Key)
    requires k in p && p[k].state == COMPLETED
    ensures k in RunEdited(p, steps) && RunEdited(p, steps)[k].state == COMPLETED
    ensures p[k].completedAt.Some? ==> RunEdited(p, steps)[k].completedAt == p[k].completedAt
    decreases |steps|
  {
    if steps != [] {
      var init := steps[..|steps| - 1];
      var (b, job) := steps[|steps| - 1];
      CompletionSurvivesEdits(p, init, k);
      AfterAt(RunEdited(p, init), b, LiveMissions(b.missions, job.eventId), job, k);
    }
  }
}
