/**
Recovery of an expired lease is a check and a later update with any number of other
steps in between.  It is sound because both packages share the case fence: nothing can
be linked to a task, or dispatched for it, once its lease has run out.
*/
module RecoverySafety {
  import opened Options
  import opened Ledger
  import opened DispatchSpec
  import opened WorkSpec
  import opened LedgerRuns
  import opened FenceSafety
  import opened QueueSafety

  /** Positively undispatched, or its first response is bound. */
  ghost predicate Settled(row: Attempt) {
    SafeToRetry(row) || row.bound.Some?
  }

  ghost predicate AllSettled(x: Fences, t: TaskKey) {
    forall f :: f in x.attempts && x.attempts[f].taskKey == Some(t) ==> Settled(x.attempts[f])
  }

  /** Nobody holds a live lease on the task. */
  ghost predicate NoLiveLease(db: Db, t: TaskKey) {
    forall owner, generation :: !LeaseLive(db, t, owner, generation)
  }

  // ---------------------------- without a live lease the attempts of a task stay settled

  /** A row of the task is rewritten only into a settled row, and no row joins the task. */
  ghost predicate TaskRowsSettle(x: Fences, y: Fences, t: TaskKey) {
    forall f :: f in y.attempts && y.attempts[f].taskKey == Some(t) ==>
      || Settled(y.attempts[f])
      || (f in x.attempts && y.attempts[f] == x.attempts[f])
  }

  lemma CaseNeedsLease(db: Db, c: Option<CaseFence>, t: TaskKey)
    requires NoLiveLease(db, t) && CheckCaseFence(db, c).None?
    ensures CaseTask(c) != Some(t)
  {
  }

  lemma DecideLinks(row: Attempt, isNew: bool, legacy: bool, retained: Option<Response>, req: DispatchRequest,
                    token: string, fence: CaptureKey, now: Time)
    ensures Decide(row, isNew, legacy, retained, req, token, fence, now).0.taskKey in {row.taskKey,
      row.taskKey.Or(CaseTask(req.caseFence))}
  {
  }

  lemma PrepareSettles(db: Db, req: DispatchRequest, token: string, t: TaskKey)
    requires NoLiveLease(db, t)
    ensures TaskRowsSettle(db.fences, PrepareStep(db, req, token).0.fences, t)
  {
    hide AdmitRequest, Resolve, CheckCaseFence, Linked, Retained, Decide, Settled, NoLiveLease;
    if Commits(PrepareStep(db, req, token).1) {
      CaseNeedsLease(db, req.caseFence, t);
      var Fence(fence, legacy) := Resolve(db, req.capture).value;
      var row := PrepareRow(db, req, fence, legacy);
      DecideLinks(row, fence !in db.fences.attempts, legacy || row.legacy, Retained(db, row.active), req, token,
          fence, db.now);
    }
  }

  lemma UndispatchedRowStaysSettled(x: Fences, f: CaptureKey, row: Attempt, t: TaskKey)
    requires AllSettled(x, t) && f in x.attempts && Undispatched(x.attempts[f].state) && Undispatched(row.state)
    requires row.legacy == x.attempts[f].legacy && row.taskKey == x.attempts[f].taskKey
      && row.bound == x.attempts[f].bound
    ensures AllSettled(x.(attempts := x.attempts[f := row]), t)
  {
    assert x.attempts[f].taskKey == Some(t) ==> Settled(x.attempts[f]);
  }

  lemma ReserveSettles(cal: Calendar, db: Db, lease: DispatchLease, scope: Scope, daily: int, monthly: int, t: TaskKey)
    requires AllSettled(db.fences, t)
    ensures AllSettled(ReserveStep(cal, db, lease, scope, daily, monthly).0.fences, t)
  {
    hide ReserveRefusal, ChargeBudget, AllSettled;
    var f, outcome := lease.FenceKey(), ReserveStep(cal, db, lease, scope, daily, monthly).1;
    if outcome.Reserved? {
      UndispatchedRowStaysSettled(db.fences, f, AdmitRow(db.fences.attempts[f], scope, Today(db)), t);
    } else if outcome.Exhausted? {
      UndispatchedRowStaysSettled(db.fences, f,
          NoDispatchRow(db.fences.attempts[f], outcome.reason, outcome.retryAfter), t);
    }
  }

  lemma BeginSettles(db: Db, lease: DispatchLease, t: TaskKey)
    requires NoLiveLease(db, t)
    ensures TaskRowsSettle(db.fences, BeginStep(db, lease).0.fences, t)
  {
    hide CheckCaseFence, PublicAdmission, NoLiveLease, CaseHeld;
    if BeginStep(db, lease).1.None? {
      CaseNeedsLease(db, lease.caseFence, t);
    }
  }

  lemma FenceNextSettles(cfg: Config, db: Db, op: FenceOp, t: TaskKey)
    requires NoLiveLease(db, t) && AllSettled(db.fences, t)
    ensures AllSettled(FenceNext(cfg, db, op).fences, t)
  {
    hide PrepareStep, ReserveStep, BeginStep, NoLiveLease;
    match op
    case Prepare(req, token) => PrepareSettles(db, req, token, t);
    case Reserve(lease, scope, daily, monthly) => ReserveSettles(cfg.calendar, db, lease, scope, daily, monthly, t);
    case Begin(lease) => BeginSettles(db, lease, t);
    case DeferDispatch(_, _, _) =>
    case Observe(_, _) =>
    case Reconcile(_) =>
  }

  /** No row joins the task, and none of its rows is dispatched. */
  ghost predicate NothingAdded(x: Fences, y: Fences, t: TaskKey) {
    forall f :: f in y.attempts && y.attempts[f].taskKey == Some(t) ==>
      && f in x.attempts && x.attempts[f].taskKey == Some(t)
      && (Undispatched(x.attempts[f].state) ==> Undispatched(y.attempts[f].state))
  }

  lemma PrepareAddsNothing(db: Db, req: DispatchRequest, token: string, t: TaskKey)
    requires NoLiveLease(db, t)
    ensures NothingAdded(db.fences, PrepareStep(db, req, token).0.fences, t)
  {
    hide AdmitRequest, Resolve, CheckCaseFence, Linked, Retained, Decide, NoLiveLease, Undispatched;
    if Commits(PrepareStep(db, req, token).1) {
      CaseNeedsLease(db, req.caseFence, t);
      var Fence(fence, legacy) := Resolve(db, req.capture).value;
      var row := PrepareRow(db, req, fence, legacy);
      DecideLinks(row, fence !in db.fences.attempts, legacy || row.legacy, Retained(db, row.active), req, token,
          fence, db.now);
    }
  }

  lemma RewriteAddsNothing(x: Fences, f: CaptureKey, row: Attempt, t: TaskKey)
    requires f in x.attempts && row.taskKey == x.attempts[f].taskKey
    requires row.taskKey == Some(t) && Undispatched(x.attempts[f].state) ==> Undispatched(row.state)
    ensures NothingAdded(x, x.(attempts := x.attempts[f := row]), t)
  {
  }

  lemma ReserveAddsNothing(cal: Calendar, db: Db, lease: DispatchLease, scope: Scope, daily: int, monthly: int,
      t: TaskKey)
    ensures NothingAdded(db.fences, ReserveStep(cal, db, lease, scope, daily, monthly).0.fences, t)
  {
    hide ReserveRefusal, ChargeBudget;
    var f, outcome := lease.FenceKey(), ReserveStep(cal, db, lease, scope, daily, monthly).1;
    if outcome.Reserved? {
      RewriteAddsNothing(db.fences, f, AdmitRow(db.fences.attempts[f], scope, Today(db)), t);
    } else if outcome.Exhausted? {
      RewriteAddsNothing(db.fences, f, NoDispatchRow(db.fences.attempts[f], outcome.reason, outcome.retryAfter), t);
    }
  }

  lemma BeginAddsNothing(db: Db, lease: DispatchLease, t: TaskKey)
    requires NoLiveLease(db, t)
    ensures NothingAdded(db.fences, BeginStep(db, lease).0.fences, t)
    ensures BeginStep(db, lease).1.None? ==>
      lease.FenceKey() in db.fences.attempts && db.fences.attempts[lease.FenceKey()].taskKey != Some(t)
  {
    hide CheckCaseFence, PublicAdmission, NoLiveLease, CaseHeld, NothingAdded;
    NothingAddsNothing(db.fences, t);
    if BeginStep(db, lease).1.None? {
      CaseNeedsLease(db, lease.caseFence, t);
      RewriteAddsNothing(db.fences, lease.FenceKey(), IntentRow(db.fences.attempts[lease.FenceKey()], db.now), t);
    }
  }

  lemma NothingAddsNothing(x: Fences, t: TaskKey)
    ensures NothingAdded(x, x, t)
  {
  }

  lemma OtherAddsNothing(cfg: Config, db: Db, op: FenceOp, t: TaskKey)
    requires op.DeferDispatch? || op.Observe? || op.Reconcile?
    ensures NothingAdded(db.fences, FenceNext(cfg, db, op).fences, t)
  {
    hide PublicAdmission, Retained, Kept;
  }

  /** While nobody holds a live lease on a task, no transaction of the controller links a
      fence to it or dispatches one that is linked. */
  lemma NothingLinkedWithoutLease(cfg: Config, db: Db, op: FenceOp, t: TaskKey)
    requires NoLiveLease(db, t)
    ensures NothingAdded(db.fences, FenceNext(cfg, db, op).fences, t)
    ensures op.Begin? && BeginStep(db, op.lease).1.None? ==>
      op.lease.FenceKey() in db.fences.attempts && db.fences.attempts[op.lease.FenceKey()].taskKey != Some(t)
  {
    hide PrepareStep, ReserveStep, BeginStep, NoLiveLease, NothingAdded;
    match op
    case Prepare(req, token) => PrepareAddsNothing(db, req, token, t);
    case Reserve(lease, scope, daily, monthly) => ReserveAddsNothing(cfg.calendar, db, lease, scope, daily, monthly, t);
    case Begin(lease) => BeginAddsNothing(db, lease, t);
    case _ => OtherAddsNothing(cfg, db, op, t);
  }

  // ------------------------------------------------------------- recoveries in flight

  /** The row that the recovery selected, still leased under the same generation. */
  ghost predicate StillSelected(db: Db, r: Recovery) {
    && r.task in db.queue.tasks
    && var t := db.queue.tasks[r.task];
    && t.born == r.born && t.generation == r.generation && t.state == Leased
  }

  /** The selected lifetime has not been re-leased under an older generation. */
  ghost predicate NotOlder(q: Queue, r: Recovery) {
    && r.born < q.nextBorn
    && (r.task in q.tasks && q.tasks[r.task].born == r.born ==> r.generation <= q.tasks[r.task].generation)
  }

  /** The selected lease has run out and has not been extended since. */
  ghost predicate RanOut(db: Db, r: Recovery) {
    StillSelected(db, r) ==>
        LeaseExpired(db, db.queue.tasks[r.task]) && db.queue.tasks[r.task].leaseUntil.value <= r.selectedAt
  }

  ghost predicate RecoverySound(db: Db, r: Recovery) {
    && NotOlder(db.queue, r)
    && RanOut(db, r)
    && (StillSelected(db, r) && r.stage.Judged? && r.stage.verdict.Safe? ==> AllSettled(db.fences, r.task))
  }

  ghost predicate RecoveriesSound(w: World) {
    && BornBefore(w.db.queue)
    && (forall id :: id in w.recoveries ==> RecoverySound(w.db, w.recoveries[id]))
  }

  lemma ExpiredIsNotLive(db: Db, t: TaskKey)
    requires t in db.queue.tasks && LeaseExpired(db, db.queue.tasks[t])
    ensures NoLiveLease(db, t)
  {
  }

  /** A queue step or the clock cannot bring the selected lease back to life. */
  lemma SelectionSurvives(a: Db, b: Db, r: Recovery)
    requires QueueMoves(a.now, a.queue, b.queue) && a.now <= b.now
    requires NotOlder(a.queue, r) && RanOut(a, r)
    ensures NotOlder(b.queue, r) && RanOut(b, r)
    ensures StillSelected(b, r) ==> StillSelected(a, r)
  {
    if r.task in b.queue.tasks && r.task in a.queue.tasks {
      assert RowMoves(a.now, a.queue.tasks[r.task], b.queue.tasks[r.task]);
    }
  }

  /** The fences of a step that is no fence step are the old ones. */
  lemma StepFencesSettle(cfg: Config, w: World, op: Op, t: TaskKey)
    requires NoLiveLease(w.db, t) && AllSettled(w.db.fences, t)
    ensures AllSettled(Step(cfg, w, op).db.fences, t)
  {
    hide FenceNext, QueueNext, EvidenceNext, RecoveredQueue, NextRecoveries, NextDispatches, NextCharges, NextApplied,
        NoLiveLease;
    if op.OnFence? { FenceNextSettles(cfg, w.db, op.fence, t); }
  }

  lemma OldRecoverySound(cfg: Config, w: World, op: Op, r: Recovery)
    requires RecoverySound(w.db, r)
    ensures RecoverySound(Step(cfg, w, op).db, r)
  {
    hide Step, NoLiveLease, AllSettled, NotOlder;
    StepMoves(cfg, w, op);
    StepClock(cfg, w, op);
    SelectionSurvives(w.db, Step(cfg, w, op).db, r);
    if StillSelected(w.db, r) {
      ExpiredIsNotLive(w.db, r.task);
      if AllSettled(w.db.fences, r.task) { StepFencesSettle(cfg, w, op, r.task); }
    }
  }

  /** A judgement of safe means that every attempt of the task is settled right now. */
  lemma SafeJudgementSettled(cfg: Config, db: Db, t: TaskKey)
    requires JudgeStage(cfg, db, t).Judged? && JudgeStage(cfg, db, t).verdict.Safe?
    ensures AllSettled(db.fences, t)
  {
    forall f | f in db.fences.attempts && db.fences.attempts[f].taskKey == Some(t)
        ensures Settled(db.fences.attempts[f]) {
      assert f in TaskAttempts(db, t);
    }
  }

  lemma StepRecoveriesSound(cfg: Config, w: World, op: Op)
    requires RecoveriesSound(w)
    ensures RecoveriesSound(Step(cfg, w, op))
  {
    hide Step, AllSettled, BornBefore, RecoverySound;
    var v := Step(cfg, w, op);
    StepBornBefore(cfg, w, op);
    StepRecoveries(cfg, w, op);
    forall id | id in v.recoveries ensures RecoverySound(v.db, v.recoveries[id]) {
      NewOrOldRecoverySound(cfg, w, op, id);
    }
  }

  /** Only the statements of recoverExpired touch the recoveries in flight. */
  lemma StepRecoveries(cfg: Config, w: World, op: Op)
    ensures Step(cfg, w, op).recoveries == if op.OnRecovery? then NextRecoveries(cfg, w, op.recovery) else w.recoveries
    ensures op.OnRecovery? && !op.recovery.Update? ==>
      Step(cfg, w, op).db.queue == w.db.queue && Step(cfg, w, op).db.now == w.db.now
    ensures op.OnRecovery? && !op.recovery.Rebind? ==> Step(cfg, w, op).db.fences == w.db.fences
  {
    hide FenceNext, QueueNext, EvidenceNext, NextRecoveries, NextDispatches, NextCharges, NextApplied, RecoverStep;
  }

  lemma NewOrOldRecoverySound(cfg: Config, w: World, op: Op, id: nat)
    requires RecoveriesSound(w) && id in Step(cfg, w, op).recoveries
    ensures RecoverySound(Step(cfg, w, op).db, Step(cfg, w, op).recoveries[id])
  {
    hide Step, AllSettled, JudgeStage;
    var v := Step(cfg, w, op);
    StepRecoveries(cfg, w, op);
    if id in w.recoveries {
      OldRecoverySound(cfg, w, op, w.recoveries[id]);
      if op.OnRecovery? && op.recovery.Judge? && op.recovery.id == id && w.recoveries[id].stage == Reconciled {
        var stage := JudgeStage(cfg, w.db, w.recoveries[id].task);
        if stage.Judged? && stage.verdict.Safe? { SafeJudgementSettled(cfg, w.db, w.recoveries[id].task); }
      }
    }
  }

  lemma {:induction false} RunRecoveriesSound(cfg: Config, w: World, ops: seq<Op>)
    requires RecoveriesSound(w)
    ensures RecoveriesSound(Run(cfg, w, ops))
    decreases |ops|
  {
    hide Step, RecoveriesSound;
    if ops != [] {
      StepRecoveriesSound(cfg, w, ops[0]);
      RunRecoveriesSound(cfg, Step(cfg, w, ops[0]), ops[1..]);
    }
  }

  /** The update would move the selected row to deferred. */
  ghost predicate WouldDefer(w: World, id: nat) {
    && id in w.recoveries
    && var r := w.recoveries[id];
    && r.stage.Judged? && RecoverStep(w.db, r.task, r.generation, r.stage.verdict).1
    && var q := RecoverStep(w.db, r.task, r.generation, r.stage.verdict).0;
    && r.task in q.tasks && q.tasks[r.task].state == Deferred
  }

  /** In every reachable state, if recoverExpired's update defers a task in the lifetime
      that it selected, then at that very moment every dispatch attempt of the task is
      undispatched or has a bound response, whatever happened since the check. */
  lemma DeferredOnlyWhenSettled(cfg: Config, ops: seq<Op>, id: nat)
    ensures var w := Run(cfg, START, ops);
      WouldDefer(w, id) && w.db.queue.tasks[w.recoveries[id].task].born == w.recoveries[id].born ==>
        AllSettled(w.db.fences, w.recoveries[id].task)
  {
    hide Run, AllSettled;
    RunRecoveriesSound(cfg, START, ops);
    var w := Run(cfg, START, ops);
    if id in w.recoveries {
      assert RecoverySound(w.db, w.recoveries[id]);
    }
  }
}
