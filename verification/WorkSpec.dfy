/**
What each transaction of the owned work queue does to the tables.  A query that
takes unlocked rows (`FOR UPDATE SKIP LOCKED LIMIT n`) may take any of them, so
the rows it takes are an argument; an impossible choice changes nothing.
*/
module WorkSpec {
  import opened Options
  import opened Ledger

  datatype RawConfig = RawConfig(
    calendar: Calendar,
    enabled: bool,
    workerEnabled: bool,
    dispatchEnabled: bool,
    spread: bool,
    maxPending: int,
    timeBuckets: int,
    maxTaskAge: int,
    leaseDuration: int)
  {
    predicate Valid() {
      24 <= maxPending <= 100000 && 1 <= timeBuckets <= 24 && HOUR <= maxTaskAge <= 30 * DAY
          && 60_000_000 <= leaseDuration
    }
  }

  type Config = c: RawConfig | c.Valid()
    witness RawConfig(Calendar(d => d / 30, d => 30 * (d / 30 + 1)), false, true, false, true, 2400, 24, 7 * DAY,
        300_000_000)

  const MAX_SWEEP := 128

  datatype WorkLease = WorkLease(task: TaskKey, owner: string, generation: int)

  predicate Terminal(s: WorkState) {
    s == Completed || s == Held || s == Obsolete || s == Expired
  }

  predicate Waiting(s: WorkState) {
    s == Queued || s == Deferred
  }

  /** The lease ran out but the row still says leased. */
  predicate LeaseExpired(db: Db, t: WorkTask) {
    t.state == Leased && t.leaseUntil.Some? && t.leaseUntil.value <= db.now
  }

  function Release(t: WorkTask, s: WorkState, reason: Reason): WorkTask {
    t.(state := s, reason := reason, owner := None, leaseUntil := None)
  }

  /** Rewrite a task row and append an event for it. */
  function Record(q: Queue, k: TaskKey, t: WorkTask): Queue {
    q.(tasks := q.tasks[k := t], events := q.events + {k})
  }

  // ------------------------------------------------------------------- Enqueue

  datatype Draft = Draft(key: TaskKey, family: nat, wellFormed: bool, emptyPayload: bool, priority: int,
      dailyLimit: int, monthlyLimit: int)

  datatype EnqueueOutcome =
    | Disabled | Invalid | NamePolicy | Privacy | Existing(state: WorkState) | Duplicate
    | FamilySampled | Full | Enqueued

  predicate ValidDraft(d: Draft) {
    d.wellFormed && 0 <= d.priority <= 100 && d.dailyLimit >= 0 && d.monthlyLimit >= 0
  }

  /** The slice of the UTC day that reserves queue space. */
  function TimeBucket(cfg: Config, now: Time): int {
    ((now % DAY) / HOUR) * cfg.timeBuckets / 24
  }

  predicate Pending(db: Db, kind: Scope, k: TaskKey) {
    && k in db.queue.tasks
    && k.kind == kind
    && !Terminal(db.queue.tasks[k].state)
    && db.queue.tasks[k].expiresAt > db.now
  }

  function PendingKeys(db: Db, kind: Scope): set<TaskKey> {
    set k | k in db.queue.tasks && Pending(db, kind, k)
  }

  function BucketKeys(db: Db, kind: Scope, bucket: int): set<TaskKey> {
    set k | k in db.queue.tasks && Pending(db, kind, k) && db.queue.tasks[k].bucket == bucket
  }

  predicate FamilyPending(db: Db, kind: Scope, family: nat) {
    exists k :: k in db.queue.tasks && Pending(db, kind, k) && db.queue.tasks[k].family == family
  }

  function BucketCap(cfg: Config): int {
    (cfg.maxPending + cfg.timeBuckets - 1) / cfg.timeBuckets
  }

  function NewTask(cfg: Config, db: Db, d: Draft): WorkTask
    requires ValidDraft(d)
  {
    WorkTask(d.family, d.emptyPayload, d.priority, TimeBucket(cfg, db.now), d.dailyLimit, Queued, NoReason, db.now,
        db.now,
             db.now + cfg.maxTaskAge, None, 0, None, None, db.queue.nextBorn)
  }

  function EnqueueStep(cfg: Config, db: Db, d: Draft, nameAllowed: bool): (Queue, EnqueueOutcome) {
    var q, kind := db.queue, d.key.kind;
    if !cfg.enabled then (q, Disabled)
    else if !ValidDraft(d) then (q, Invalid)
    else if !nameAllowed then (q, NamePolicy)
    else if d.key.infoHash !in db.evidence.publicHashes then (q, Privacy)
    else if d.key in q.tasks
        then (q, if Terminal(q.tasks[d.key].state) then Existing(q.tasks[d.key].state) else Duplicate)
    else if FamilyPending(db, kind, d.family) then (q, FamilySampled)
    else if |PendingKeys(db, kind)| >= cfg.maxPending
        || |BucketKeys(db, kind, TimeBucket(cfg, db.now))| >= BucketCap(cfg) then (q, Full)
    else (Record(q, d.key, NewTask(cfg, db, d)).(nextBorn := q.nextBorn + 1), Enqueued)
  }

  // --------------------------------------------------------------------- Claim

  /** Spread new cases over the day: the share of the day that has passed is at
      least the share of the daily allowance already used. */
  predicate Paced(cfg: Config, db: Db, k: TaskKey)
    requires k in db.queue.tasks
  {
    var t := db.queue.tasks[k];
    var today := Today(db);
    var key := BudgetKey(k.kind, cfg.calendar.monthOf(today));
    var calls := if key in db.budgets && db.budgets[key].day == today then db.budgets[key].dailyCalls else 0;
    !cfg.spread || t.priority > 0 || (t.dailyLimit > 0 && (db.now - today * DAY) * t.dailyLimit >= DAY * calls)
  }

  predicate Eligible(cfg: Config, db: Db, k: TaskKey) {
    && k in db.queue.tasks
    && var t := db.queue.tasks[k];
    && Waiting(t.state) && t.retryAfter <= db.now && t.expiresAt > db.now
    && k.infoHash in db.evidence.publicHashes
    && Paced(cfg, db, k)
  }

  predicate Aged(db: Db, k: TaskKey) {
    k in db.queue.tasks && Waiting(db.queue.tasks[k].state) && db.queue.tasks[k].expiresAt <= db.now
  }

  function AgeTasks(q: Queue, aged: set<TaskKey>): Queue {
    q.(tasks := map k | k in q.tasks ::
        if k in aged then Release(q.tasks[k], Expired, TaskAge) else q.tasks[k], events := q.events + aged)
  }

  function LeaseTask(t: WorkTask, owner: string, until: Time): WorkTask {
    t.(state := Leased, reason := NoReason, owner := Some(owner), generation := t.generation + 1,
        leaseUntil := Some(until))
  }

  /** When cases of the same kind and time bucket were completed within the last day. */
  function RecentlyDone(db: Db, k: TaskKey): set<Time>
    requires k in db.queue.tasks
  {
    var tasks := db.queue.tasks;
    set j | j in tasks && j.kind == k.kind && tasks[j].bucket == tasks[k].bucket && tasks[j].completedAt.Some?
            && tasks[j].completedAt.value > db.now - DAY :: tasks[j].completedAt.value
  }

  /** The latest of a is no later than the latest of b; having none comes first. */
  predicate NoLaterThan(a: set<Time>, b: set<Time>) {
    forall x :: x in a ==> exists y :: y in b && x <= y
  }

  /** Claim's order: priority, then the bucket that has waited longest for a completed case,
      then age, then the task key. */
  predicate Precedes(db: Db, keyOrder: TaskKey -> nat, a: TaskKey, b: TaskKey)
    requires a in db.queue.tasks && b in db.queue.tasks
  {
    var t, u := db.queue.tasks[a], db.queue.tasks[b];
    if t.priority != u.priority then t.priority > u.priority
    else if !NoLaterThan(RecentlyDone(db, a), RecentlyDone(db, b)) then false
    else if !NoLaterThan(RecentlyDone(db, b), RecentlyDone(db, a)) then true
    else if t.createdAt != u.createdAt then t.createdAt < u.createdAt
    else keyOrder(a) <= keyOrder(b)
  }

  /** The rows that Claim may age are bounded and aged, and its caller is in order. */
  predicate MayClaim(cfg: Config, db: Db, owner: string, aged: set<TaskKey>) {
    && cfg.enabled && cfg.workerEnabled && 0 < |owner| <= 128
    && |aged| <= MAX_SWEEP && forall k :: k in aged ==> Aged(db, k)
  }

  /** Claim's own transaction: age a bounded set of waiting tasks, then lease one. */
  function ClaimStep(cfg: Config, db: Db, owner: string, aged: set<TaskKey>, pick: Option<TaskKey>): (Queue,
      Option<WorkLease>) {
    if !MayClaim(cfg, db, owner, aged) then (db.queue, None)
    else
      var q := AgeTasks(db.queue, aged);
      if pick.None? then (q, None)
      else if !Eligible(cfg, db.(queue := q), pick.value) then (db.queue, None)
      else
        var t := LeaseTask(q.tasks[pick.value], owner, db.now + cfg.leaseDuration);
        (Record(q, pick.value, t), Some(WorkLease(pick.value, owner, t.generation)))
  }

  // ------------------------------------------- Heartbeat, MarkProgress, Finish, Apply

  predicate Owns(db: Db, l: WorkLease) {
    LeaseLive(db, l.task, l.owner, l.generation)
  }

  function HeartbeatStep(cfg: Config, db: Db, l: WorkLease): (Queue, bool) {
    if !Owns(db, l) then (db.queue, false)
    else (db.queue.(tasks :=
        db.queue.tasks[l.task := db.queue.tasks[l.task].(leaseUntil := Some(db.now + cfg.leaseDuration))]), true)
  }

  function ProgressStep(db: Db, l: WorkLease): (Queue, bool) {
    if !Owns(db, l) then (db.queue, false)
    else (db.queue.(tasks := db.queue.tasks[l.task := db.queue.tasks[l.task].(priority := 100)]), true)
  }

  predicate Finishable(s: WorkState) {
    s == Deferred || s == Completed || s == Held || s == Obsolete
  }

  function FinishStep(db: Db, l: WorkLease, s: WorkState, reason: string, retryAfter: Time): (Queue, bool) {
    if !Finishable(s) || |reason| > 64 || !Owns(db, l) then (db.queue, false)
    else
      var t := db.queue.tasks[l.task];
      var done := if s == Completed then Some(db.now) else t.completedAt;
      (Record(db.queue, l.task, Release(t, s, Given(reason)).(retryAfter := retryAfter, completedAt := done)), true)
  }

  /** The source adapter run inside Apply's transaction. */
  datatype Adapter = NoAdapter | NameBlocked | AdapterFails | AdapterSucceeds(recordsApplication: bool)

  predicate RecordsApplication(a: Adapter) {
    a.AdapterSucceeds? && a.recordsApplication
  }

  function ApplyStep(db: Db, l: WorkLease, reason: string, adapter: Adapter): (Queue, bool) {
    var q := db.queue;
    if !Owns(db, l) || adapter.NameBlocked? || adapter.AdapterFails? then (q, false)
    else if RecordsApplication(adapter) && l.task in q.applications then (q, false)
    else
      var t := Release(q.tasks[l.task], Completed, Given(reason)).(completedAt := Some(db.now));
      (Record(q, l.task, t).(applications := if RecordsApplication(adapter) then q.applications + {l.task}
          else q.applications), true)
  }

  // ---------------------------------------------------------- recovery and Cleanup

  /** What recoverExpired concluded about the dispatch attempts of a task. */
  datatype Verdict = NoController | Unsafe | Safe(progressed: bool)

  function RecoveredTask(k: TaskKey, t: WorkTask, v: Verdict, now: Time): WorkTask {
    match v
    case NoController => Release(t, Held, ExpiredLeaseNeedsReconcile).(retryAfter := now)
    case Unsafe => Release(t, Held, UnknownDispatchOrExpiredResponse).(retryAfter := now)
    case Safe(progressed) =>
      Release(t, Deferred, RecoveredBeforeDispatchOrReplay).(
        retryAfter := now, priority := if k.kind == Matcher && progressed then 100 else t.priority)
  }

  /** The conditional update at the end of recoverExpired. */
  function RecoverStep(db: Db, k: TaskKey, generation: int, v: Verdict): (Queue, bool) {
    if k !in db.queue.tasks || db.queue.tasks[k].generation != generation || !LeaseExpired(db, db.queue.tasks[k])
        then (db.queue, false)
    else (Record(db.queue, k, RecoveredTask(k, db.queue.tasks[k], v, db.now)), true)
  }

  predicate CleanupAged(db: Db, k: TaskKey) {
    && k in db.queue.tasks && db.queue.tasks[k].expiresAt <= db.now
    && (Waiting(db.queue.tasks[k].state) || LeaseExpired(db, db.queue.tasks[k]))
  }

  function AgeForCleanup(q: Queue, aged: set<TaskKey>): Queue {
    q.(tasks := map k | k in q.tasks ::
         if k in aged then Release(q.tasks[k], if q.tasks[k].state == Leased then Held else Expired, TaskAge)
             else q.tasks[k],
       events := q.events + aged)
  }

  predicate Sweepable(q: Queue, now: Time, k: TaskKey) {
    && k in q.tasks && Terminal(q.tasks[k].state) && q.tasks[k].expiresAt <= now
    && (!q.tasks[k].scrubbed || k in q.events || k !in q.applications)
  }

  function SweepTasks(q: Queue, swept: set<TaskKey>): Queue {
    q.(tasks := map k | k in q.tasks && !(k in swept && k !in q.applications) ::
         if k in swept then q.tasks[k].(scrubbed := true) else q.tasks[k],
       events := q.events - swept)
  }

  function CleanupStep(db: Db, aged: set<TaskKey>, swept: set<TaskKey>): (Queue, bool) {
    if |aged| > MAX_SWEEP || !(forall k :: k in aged ==> CleanupAged(db, k)) then (db.queue, false)
    else
      var q := AgeForCleanup(db.queue, aged);
      if |swept| > MAX_SWEEP || !(forall k :: k in swept ==> Sweepable(q, db.now, k)) then (db.queue, false)
      else (SweepTasks(q, swept), true)
  }
}
