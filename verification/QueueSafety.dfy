/**
The work queue over whole runs: capacity, time-bucket and family bounds, terminal
states that are never left, and at most one committed application per task key.
*/
module QueueSafety {
  import opened Options
  import opened Ledger
  import opened DispatchSpec
  import opened WorkSpec
  import opened LedgerRuns
  import opened FiniteSets

  // ----------------------------------------------- how one step may move a task row

  /** A leased row has an end to its lease (the table's own check). */
  ghost predicate LeaseShaped(t: WorkTask) {
    t.state == Leased ==> t.leaseUntil.Some?
  }

  /** Within one lifetime: terminal states are final, generations only grow, and a
      lease that ran out is never extended under the same generation. */
  ghost predicate RowMoves(now: Time, t: WorkTask, u: WorkTask) {
    && u.born == t.born && u.family == t.family && u.bucket == t.bucket && u.expiresAt == t.expiresAt
    && t.generation <= u.generation
    && (Terminal(t.state) ==> u.state == t.state)
    && (u.state == Leased && u.generation == t.generation ==>
          && t.state == Leased
          && (t.leaseUntil.Some? && t.leaseUntil.value <= now ==> u.leaseUntil == t.leaseUntil))
    && (LeaseShaped(t) ==> LeaseShaped(u))
  }

  /** A row that appears is queued and starts a new lifetime. */
  ghost predicate RowAppears(q: Queue, t: WorkTask) {
    t.born == q.nextBorn && t.state == Queued
  }

  ghost predicate QueueMoves(now: Time, q: Queue, r: Queue) {
    && q.nextBorn <= r.nextBorn
    && (forall k :: k in r.tasks ==>
        if k in q.tasks then RowMoves(now, q.tasks[k], r.tasks[k])
        else RowAppears(q, r.tasks[k]) && q.nextBorn < r.nextBorn)
    && (forall k :: k in q.tasks && k in q.applications ==> k in r.tasks)
    && q.applications <= r.applications
  }

  lemma EnqueueMoves(cfg: Config, db: Db, d: Draft, nameAllowed: bool)
    ensures QueueMoves(db.now, db.queue, EnqueueStep(cfg, db, d, nameAllowed).0)
  {
    hide FamilyPending, PendingKeys, BucketKeys, TimeBucket;
  }

  lemma AgeMoves(db: Db, aged: set<TaskKey>)
    requires forall k :: k in aged ==> Aged(db, k)
    ensures QueueMoves(db.now, db.queue, AgeTasks(db.queue, aged))
  {
  }

  lemma ClaimMoves(cfg: Config, db: Db, owner: string, aged: set<TaskKey>, pick: Option<TaskKey>)
    ensures QueueMoves(db.now, db.queue, ClaimStep(cfg, db, owner, aged, pick).0)
  {
    hide Paced, Aged;
    if forall k :: k in aged ==> Aged(db, k) {
      AgeMoves(db, aged);
    }
  }

  lemma LeaseMoves(cfg: Config, db: Db, op: QueueOp)
    requires op.Heartbeat? || op.Progress? || op.Finish? || op.Apply?
    ensures QueueMoves(db.now, db.queue, QueueNext(cfg, db, op))
  {
  }

  lemma RecoverMoves(db: Db, k: TaskKey, generation: int, v: Verdict)
    ensures QueueMoves(db.now, db.queue, RecoverStep(db, k, generation, v).0)
  {
  }

  lemma AgeForCleanupMoves(db: Db, aged: set<TaskKey>)
    requires forall k :: k in aged ==> CleanupAged(db, k)
    ensures QueueMoves(db.now, db.queue, AgeForCleanup(db.queue, aged))
  {
  }

  lemma CleanupMoves(db: Db, aged: set<TaskKey>, swept: set<TaskKey>)
    ensures QueueMoves(db.now, db.queue, CleanupStep(db, aged, swept).0)
  {
    hide CleanupAged, AgeForCleanup, Sweepable;
    if forall k :: k in aged ==> CleanupAged(db, k) {
      AgeForCleanupMoves(db, aged);
    }
  }

  /** The dispatch controller never writes the queue, the evidence or the clock. */
  lemma FenceLeavesQueue(cfg: Config, db: Db, op: FenceOp)
    ensures FenceNext(cfg, db, op) ==
      db.(fences := FenceNext(cfg, db, op).fences, budgets := FenceNext(cfg, db, op).budgets)
  {
    hide AdmitRequest, Resolve, CheckCaseFence, Foreign, Linked, Retained, Decide, ReserveRefusal, ChargeBudget,
        MayDispatch, MayObserve, MayReconcile, HoldsUndispatched;
  }

  lemma StepMoves(cfg: Config, w: World, op: Op)
    ensures QueueMoves(w.db.now, w.db.queue, Step(cfg, w, op).db.queue)
  {
    hide FenceNext, QueueNext, EvidenceNext, RecoverStep, ReconcileStep, NextRecoveries, NextDispatches, NextCharges,
        NextApplied;
    match op
    case OnFence(o) => FenceLeavesQueue(cfg, w.db, o);
    case OnQueue(o) => QueueNextMoves(cfg, w.db, o);
    case OnRecovery(o) =>
      if o.Update? && o.id in w.recoveries && w.recoveries[o.id].stage.Judged? {
        RecoverMoves(w.db, w.recoveries[o.id].task, w.recoveries[o.id].generation, w.recoveries[o.id].stage.verdict);
      }
    case OnEvidence(_) =>
    case Tick(_) =>
  }

  lemma QueueNextMoves(cfg: Config, db: Db, op: QueueOp)
    ensures QueueMoves(db.now, db.queue, QueueNext(cfg, db, op))
  {
    hide EnqueueStep, ClaimStep, CleanupStep, HeartbeatStep, ProgressStep, FinishStep, ApplyStep;
    match op
    case Enqueue(d, nameAllowed) => EnqueueMoves(cfg, db, d, nameAllowed);
    case Claim(owner, aged, pick) => ClaimMoves(cfg, db, owner, aged, pick);
    case Cleanup(aged, swept) => CleanupMoves(db, aged, swept);
    case _ => LeaseMoves(cfg, db, op);
  }

  lemma StepClock(cfg: Config, w: World, op: Op)
    ensures w.db.now <= Step(cfg, w, op).db.now
    ensures !op.Tick? ==> Step(cfg, w, op).db.now == w.db.now
  {
    hide FenceNext, QueueNext, EvidenceNext, RecoveredQueue, NextRecoveries, NextDispatches, NextCharges, NextApplied;
    if op.OnFence? { FenceLeavesQueue(cfg, w.db, op.fence); }
  }

  // ------------------------------------------------------------------ terminal states

  ghost predicate BornBefore(q: Queue) {
    forall k :: k in q.tasks ==> q.tasks[k].born < q.nextBorn
  }

  lemma StepBornBefore(cfg: Config, w: World, op: Op)
    requires BornBefore(w.db.queue)
    ensures BornBefore(Step(cfg, w, op).db.queue)
  {
    hide Step;
    StepMoves(cfg, w, op);
    var q, r := w.db.queue, Step(cfg, w, op).db.queue;
    forall k | k in r.tasks ensures r.tasks[k].born < r.nextBorn {
      if k in q.tasks { assert RowMoves(w.db.now, q.tasks[k], r.tasks[k]); } else { assert RowAppears(q, r.tasks[k]); }
    }
  }

  /** A lifetime that has ended or not yet begun is not the lifetime of any row. */
  lemma {:induction false} RunNeverRevives(cfg: Config, w: World, ops: seq<Op>, k: TaskKey, born: nat)
    requires BornBefore(w.db.queue) && born < w.db.queue.nextBorn
    requires k in w.db.queue.tasks ==> w.db.queue.tasks[k].born != born
    ensures var q := Run(cfg, w, ops).db.queue; k in q.tasks ==> q.tasks[k].born != born
    decreases |ops|
  {
    hide Step;
    if ops != [] {
      StepMoves(cfg, w, ops[0]);
      StepBornBefore(cfg, w, ops[0]);
      var r := Step(cfg, w, ops[0]).db.queue;
      if k in r.tasks {
        assert if k in w.db.queue.tasks then RowMoves(w.db.now, w.db.queue.tasks[k], r.tasks[k])
            else RowAppears(w.db.queue, r.tasks[k]);
      }
      RunNeverRevives(cfg, Step(cfg, w, ops[0]), ops[1..], k, born);
    }
  }

  /** Whatever workers, stale leases, recoveries and cleanups do later, a task row in a
      terminal state stays in that state for the rest of its lifetime. */
  lemma {:induction false} TerminalForever(cfg: Config, w: World, ops: seq<Op>, k: TaskKey)
    requires BornBefore(w.db.queue) && k in w.db.queue.tasks && Terminal(w.db.queue.tasks[k].state)
    ensures var q := Run(cfg, w, ops).db.queue;
      k in q.tasks && q.tasks[k].born == w.db.queue.tasks[k].born ==> q.tasks[k].state == w.db.queue.tasks[k].state
    decreases |ops|
  {
    hide Step;
    if ops != [] {
      var w1 := Step(cfg, w, ops[0]);
      StepMoves(cfg, w, ops[0]);
      StepBornBefore(cfg, w, ops[0]);
      if k in w1.db.queue.tasks {
        assert RowMoves(w.db.now, w.db.queue.tasks[k], w1.db.queue.tasks[k]);
        TerminalForever(cfg, w1, ops[1..], k);
      } else {
        RunNeverRevives(cfg, w1, ops[1..], k, w.db.queue.tasks[k].born);
      }
    }
  }

  // -------------------------------------------------------------------- applications

  /** Every recorded application has its row and its task is completed. */
  ghost predicate ApplicationsBacked(w: World) {
    && (forall i, j :: 0 <= i < j < |w.applied| ==> w.applied[i] != w.applied[j])
    && (forall k :: k in w.applied <==> k in w.db.queue.applications)
    && (forall k :: k in w.db.queue.applications ==> k in w.db.queue.tasks && w.db.queue.tasks[k].state == Completed)
  }

  /** The step is an Apply that commits an application row. */
  predicate CommitsApplication(w: World, op: Op) {
    op.OnQueue? && op.queue.Apply? && ApplyStep(w.db, op.queue.work, op.queue.reason, op.queue.adapter).1
        && RecordsApplication(op.queue.adapter)
  }

  /** The application row, the record of it and the completed state come together. */
  lemma StepApplied(cfg: Config, w: World, op: Op)
    ensures var v := Step(cfg, w, op);
      if CommitsApplication(w, op) then
        var k := op.queue.work.task;
        && k !in w.db.queue.applications && v.db.queue.applications == w.db.queue.applications + {k}
        && v.applied == w.applied + [k]
        && k in v.db.queue.tasks && v.db.queue.tasks[k].state == Completed
      else v.db.queue.applications == w.db.queue.applications && v.applied == w.applied
  {
    hide FenceNext, EvidenceNext, ReconcileStep, NextRecoveries, NextDispatches, NextCharges;
    hide Paced, Eligible, Aged, FamilyPending, PendingKeys, BucketKeys, CleanupAged, Sweepable, RecoveredTask,
        LeaseLive;
    match op
    case OnFence(o) => FenceLeavesQueue(cfg, w.db, o);
    case _ =>
  }

  lemma StepApplicationsBacked(cfg: Config, w: World, op: Op)
    requires ApplicationsBacked(w)
    ensures ApplicationsBacked(Step(cfg, w, op))
  {
    hide Step, CommitsApplication;
    StepApplied(cfg, w, op);
    StepMoves(cfg, w, op);
    var v := Step(cfg, w, op);
    forall k | k in w.db.queue.applications ensures k in v.db.queue.tasks && v.db.queue.tasks[k].state == Completed {
      assert RowMoves(w.db.now, w.db.queue.tasks[k], v.db.queue.tasks[k]);
    }
  }

  lemma {:induction false} RunApplicationsBacked(cfg: Config, w: World, ops: seq<Op>)
    requires ApplicationsBacked(w)
    ensures ApplicationsBacked(Run(cfg, w, ops))
    decreases |ops|
  {
    hide Step, ApplicationsBacked;
    if ops != [] {
      StepApplicationsBacked(cfg, w, ops[0]);
      RunApplicationsBacked(cfg, Step(cfg, w, ops[0]), ops[1..]);
    }
  }

  /** Over any run a task key gets at most one application, its row is never lost and its
      task is completed from then on. */
  lemma AtMostOneApplication(cfg: Config, ops: seq<Op>)
    ensures var w := Run(cfg, START, ops);
      && (forall i, j :: 0 <= i < j < |w.applied| ==> w.applied[i] != w.applied[j])
      && (forall k :: k in w.applied ==>
            k in w.db.queue.applications && k in w.db.queue.tasks && w.db.queue.tasks[k].state == Completed)
  {
    hide Run;
    RunApplicationsBacked(cfg, START, ops);
  }

  // ------------------------------------------------------------------------ capacity

  ghost predicate FamiliesDistinct(db: Db) {
    forall j: TaskKey, k: TaskKey ::
        Pending(db, j.kind, j) && Pending(db, j.kind, k) && db.queue.tasks[j].family == db.queue.tasks[k].family ==>
        j == k
  }

  ghost predicate WithinCapacity(cfg: Config, db: Db) {
    && (forall kind :: |PendingKeys(db, kind)| <= cfg.maxPending)
    && (forall kind, bucket :: |BucketKeys(db, kind, bucket)| <= BucketCap(cfg))
    && FamiliesDistinct(db)
  }

  /** Only Enqueue makes a task pending; every other step keeps what is pending as it was. */
  ghost predicate NoNewPending(a: Db, b: Db) {
    forall k: TaskKey :: k in b.queue.tasks && Pending(b, k.kind, k) ==>
      && Pending(a, k.kind, k)
      && b.queue.tasks[k].bucket == a.queue.tasks[k].bucket && b.queue.tasks[k].family == a.queue.tasks[k].family
  }

  lemma MovesAddNoPending(a: Db, b: Db)
    requires QueueMoves(a.now, a.queue, b.queue) && a.now <= b.now
    requires b.queue.tasks.Keys <= a.queue.tasks.Keys
    ensures NoNewPending(a, b)
  {
    forall k | k in b.queue.tasks && Pending(b, k.kind, k)
      ensures Pending(a, k.kind, k) && b.queue.tasks[k].bucket == a.queue.tasks[k].bucket
        && b.queue.tasks[k].family == a.queue.tasks[k].family
    {
      assert RowMoves(a.now, a.queue.tasks[k], b.queue.tasks[k]);
    }
  }

  lemma FewerPendingFit(cfg: Config, a: Db, b: Db)
    requires WithinCapacity(cfg, a) && NoNewPending(a, b)
    ensures WithinCapacity(cfg, b)
  {
    hide BucketCap;
    forall kind ensures |PendingKeys(b, kind)| <= cfg.maxPending {
      CardSubset(PendingKeys(b, kind), PendingKeys(a, kind));
    }
    forall kind, bucket ensures |BucketKeys(b, kind, bucket)| <= BucketCap(cfg) {
      CardSubset(BucketKeys(b, kind, bucket), BucketKeys(a, kind, bucket));
    }
  }

  /** A step that is not an accepted Enqueue adds no task row. */
  predicate Accepts(cfg: Config, w: World, op: Op) {
    op.OnQueue? && op.queue.Enqueue? && EnqueueStep(cfg, w.db, op.queue.draft, op.queue.nameAllowed).1 == Enqueued
  }

  lemma StepAddsNoTask(cfg: Config, w: World, op: Op)
    requires !Accepts(cfg, w, op)
    ensures Step(cfg, w, op).db.queue.tasks.Keys <= w.db.queue.tasks.Keys
  {
    hide FenceNext, EvidenceNext, ReconcileStep, NextRecoveries, NextDispatches, NextCharges, NextApplied;
    hide Paced, Aged, FamilyPending, PendingKeys, BucketKeys, CleanupAged, Sweepable, RecoveredTask;
    match op
    case OnFence(o) => FenceLeavesQueue(cfg, w.db, o);
    case _ =>
  }

  /** What an accepted Enqueue has checked, and what it adds. */
  ghost predicate AddsOne(cfg: Config, a: Db, b: Db, k: TaskKey, t: WorkTask) {
    && b.now == a.now && k !in a.queue.tasks && b.queue.tasks == a.queue.tasks[k := t]
    && |PendingKeys(a, k.kind)| < cfg.maxPending
    && |BucketKeys(a, k.kind, t.bucket)| < BucketCap(cfg)
    && !FamilyPending(a, k.kind, t.family)
  }

  lemma EnqueueAddsOne(cfg: Config, db: Db, d: Draft, nameAllowed: bool)
    requires EnqueueStep(cfg, db, d, nameAllowed).1 == Enqueued
    ensures ValidDraft(d)
      && AddsOne(cfg, db, db.(queue := EnqueueStep(cfg, db, d, nameAllowed).0), d.key, NewTask(cfg, db, d))
  {
    hide PendingKeys, BucketKeys, FamilyPending, TimeBucket, BucketCap;
  }

  lemma OneMorePending(cfg: Config, a: Db, b: Db, k: TaskKey, t: WorkTask, kind: Scope)
    requires AddsOne(cfg, a, b, k, t) && |PendingKeys(a, kind)| <= cfg.maxPending
    ensures |PendingKeys(b, kind)| <= cfg.maxPending
  {
    hide BucketKeys, BucketCap, FamilyPending;
    CardSubset(PendingKeys(b, kind), PendingKeys(a, kind) + if kind == k.kind then {k} else {});
  }

  lemma OneMoreInBucket(cfg: Config, a: Db, b: Db, k: TaskKey, t: WorkTask, kind: Scope, bucket: int)
    requires AddsOne(cfg, a, b, k, t) && |BucketKeys(a, kind, bucket)| <= BucketCap(cfg)
    ensures |BucketKeys(b, kind, bucket)| <= BucketCap(cfg)
  {
    hide PendingKeys, BucketCap, FamilyPending;
    CardSubset(BucketKeys(b, kind, bucket),
        BucketKeys(a, kind, bucket) + if kind == k.kind && bucket == t.bucket then {k} else {});
  }

  lemma OneMoreFamily(cfg: Config, a: Db, b: Db, k: TaskKey, t: WorkTask)
    requires AddsOne(cfg, a, b, k, t) && FamiliesDistinct(a)
    ensures FamiliesDistinct(b)
  {
    hide PendingKeys, BucketKeys, BucketCap;
  }

  lemma EnqueueFits(cfg: Config, db: Db, d: Draft, nameAllowed: bool)
    requires WithinCapacity(cfg, db) && EnqueueStep(cfg, db, d, nameAllowed).1 == Enqueued
    ensures WithinCapacity(cfg, db.(queue := EnqueueStep(cfg, db, d, nameAllowed).0))
  {
    hide EnqueueStep, PendingKeys, BucketKeys, BucketCap, FamiliesDistinct, AddsOne;
    var b := db.(queue := EnqueueStep(cfg, db, d, nameAllowed).0);
    EnqueueAddsOne(cfg, db, d, nameAllowed);
    forall kind ensures |PendingKeys(b, kind)| <= cfg.maxPending {
      OneMorePending(cfg, db, b, d.key, NewTask(cfg, db, d), kind);
    }
    forall kind, bucket ensures |BucketKeys(b, kind, bucket)| <= BucketCap(cfg) {
      OneMoreInBucket(cfg, db, b, d.key, NewTask(cfg, db, d), kind, bucket);
    }
    OneMoreFamily(cfg, db, b, d.key, NewTask(cfg, db, d));
  }

  lemma StepWithinCapacity(cfg: Config, w: World, op: Op)
    requires WithinCapacity(cfg, w.db)
    ensures WithinCapacity(cfg, Step(cfg, w, op).db)
  {
    hide FenceNext, EnqueueStep, EvidenceNext, WithinCapacity, NextApplied;
    if Accepts(cfg, w, op) {
      EnqueueFits(cfg, w.db, op.queue.draft, op.queue.nameAllowed);
    } else {
      StepMoves(cfg, w, op);
      StepClock(cfg, w, op);
      StepAddsNoTask(cfg, w, op);
      MovesAddNoPending(w.db, Step(cfg, w, op).db);
      FewerPendingFit(cfg, w.db, Step(cfg, w, op).db);
    }
  }

  lemma {:induction false} RunWithinCapacity(cfg: Config, w: World, ops: seq<Op>)
    requires WithinCapacity(cfg, w.db)
    ensures WithinCapacity(cfg, Run(cfg, w, ops).db)
    decreases |ops|
  {
    hide Step, WithinCapacity;
    if ops != [] {
      StepWithinCapacity(cfg, w, ops[0]);
      RunWithinCapacity(cfg, Step(cfg, w, ops[0]), ops[1..]);
    }
  }

  /** In every reachable state the unexpired pending tasks of a kind fit the queue, fit
      their slice of the day, and no two share a release family. */
  lemma QueueStaysWithinCapacity(cfg: Config, ops: seq<Op>)
    ensures WithinCapacity(cfg, Run(cfg, START, ops).db)
  {
    hide Run;
    forall kind ensures PendingKeys(START.db, kind) == {} {}
    forall kind, bucket ensures BucketKeys(START.db, kind, bucket) == {} {}
    assert BucketCap(cfg) >= 0;
    RunWithinCapacity(cfg, START, ops);
  }
}
