/**
How long a verdict of recoverExpired can be trusted, in terms of what the database shows. A
second lifetime of the selected task has to be leased after the selection, so its lease ends
at least a lease duration later.
*/
module RecoveryWindow {
  import opened Options
  import opened Ledger
  import opened DispatchSpec
  import opened WorkSpec
  import opened LedgerRuns
  import opened QueueSafety
  import opened RecoverySafety

  // ------------------------------------------------------------- where leases come from

  /** A leased row has been leased or extended right now, or was leased until then before. */
  ghost predicate LeaseFrom(cfg: Config, now: Time, q: Queue, k: TaskKey, u: WorkTask) {
    u.state == Leased ==>
      || u.leaseUntil == Some(now + cfg.leaseDuration)
      || (k in q.tasks && q.tasks[k].state == Leased && q.tasks[k].born == u.born
          && q.tasks[k].leaseUntil == u.leaseUntil)
  }

  ghost predicate LeasesFrom(cfg: Config, now: Time, q: Queue, r: Queue) {
    forall k :: k in r.tasks ==> LeaseFrom(cfg, now, q, k, r.tasks[k])
  }

  lemma QueueLeases(cfg: Config, db: Db, op: QueueOp)
    ensures LeasesFrom(cfg, db.now, db.queue, QueueNext(cfg, db, op))
  {
    hide FamilyPending, PendingKeys, BucketKeys, TimeBucket, Paced, Sweepable, CleanupAged, Aged;
  }

  lemma RecoverLeases(cfg: Config, db: Db, k: TaskKey, generation: int, v: Verdict)
    ensures LeasesFrom(cfg, db.now, db.queue, RecoverStep(db, k, generation, v).0)
  {
  }

  lemma StepLeases(cfg: Config, w: World, op: Op)
    ensures LeasesFrom(cfg, w.db.now, w.db.queue, Step(cfg, w, op).db.queue)
  {
    hide FenceNext, QueueNext, EvidenceNext, RecoverStep, ReconcileStep, NextRecoveries, NextDispatches, NextCharges,
        NextApplied;
    match op
    case OnFence(o) => FenceLeavesQueue(cfg, w.db, o);
    case OnQueue(o) => QueueLeases(cfg, w.db, o);
    case OnRecovery(o) =>
      if o.Update? && o.id in w.recoveries && w.recoveries[o.id].stage.Judged? {
        RecoverLeases(cfg, w.db, w.recoveries[o.id].task, w.recoveries[o.id].generation,
            w.recoveries[o.id].stage.verdict);
      }
    case OnEvidence(_) =>
    case Tick(_) =>
  }

  // --------------------------------------------------------- other lifetimes of the task

  /** A lease of another lifetime of the selected task was taken after the selection. */
  ghost predicate LeasedLater(cfg: Config, db: Db, r: Recovery) {
    && r.selectedAt <= db.now
    && (r.task in db.queue.tasks ==>
          var t := db.queue.tasks[r.task];
          t.born != r.born && t.state == Leased ==>
              t.leaseUntil.Some? && t.leaseUntil.value >= r.selectedAt + cfg.leaseDuration)
  }

  ghost predicate AllLeasedLater(cfg: Config, w: World) {
    forall id :: id in w.recoveries ==> LeasedLater(cfg, w.db, w.recoveries[id])
  }

  lemma OldStaysLater(cfg: Config, w: World, op: Op, r: Recovery)
    requires LeasedLater(cfg, w.db, r)
    ensures LeasedLater(cfg, Step(cfg, w, op).db, r)
  {
    hide Step;
    StepLeases(cfg, w, op);
    StepClock(cfg, w, op);
    var v := Step(cfg, w, op);
    if r.task in v.db.queue.tasks { assert LeaseFrom(cfg, w.db.now, w.db.queue, r.task, v.db.queue.tasks[r.task]); }
  }

  lemma StepLeasedLater(cfg: Config, w: World, op: Op)
    requires AllLeasedLater(cfg, w)
    ensures AllLeasedLater(cfg, Step(cfg, w, op))
  {
    hide Step, LeasedLater, JudgeStage;
    var v := Step(cfg, w, op);
    StepRecoveries(cfg, w, op);
    forall id | id in v.recoveries ensures LeasedLater(cfg, v.db, v.recoveries[id]) {
      if id in w.recoveries {
        OldStaysLater(cfg, w, op, w.recoveries[id]);
        SameButStage(cfg, v.db, w.recoveries[id], v.recoveries[id]);
      } else {
        JustSelected(cfg, v.db, v.recoveries[id]);
      }
    }
  }

  lemma SameButStage(cfg: Config, db: Db, r: Recovery, s: Recovery)
    requires r.(stage := Aborted) == s.(stage := Aborted)
    ensures LeasedLater(cfg, db, r) == LeasedLater(cfg, db, s)
  {
  }

  lemma JustSelected(cfg: Config, db: Db, r: Recovery)
    requires r.selectedAt == db.now && r.task in db.queue.tasks && db.queue.tasks[r.task].born == r.born
    ensures LeasedLater(cfg, db, r)
  {
  }

  lemma {:induction false} RunLeasedLater(cfg: Config, w: World, ops: seq<Op>)
    requires AllLeasedLater(cfg, w)
    ensures AllLeasedLater(cfg, Run(cfg, w, ops))
    decreases |ops|
  {
    hide Step, AllLeasedLater;
    if ops != [] {
      StepLeasedLater(cfg, w, ops[0]);
      RunLeasedLater(cfg, Step(cfg, w, ops[0]), ops[1..]);
    }
  }

  // ---------------------------------------------------------------- what a caller can see

  /** In every reachable state, the row that the update would defer is in the selected
      lifetime exactly when its lease_until is still no later than the selection. */
  lemma LeaseShowsLifetime(cfg: Config, ops: seq<Op>, id: nat)
    ensures var w := Run(cfg, START, ops);
      WouldDefer(w, id) ==>
        var r, t := w.recoveries[id], w.db.queue.tasks[w.recoveries[id].task];
        t.leaseUntil.Some? && (t.born == r.born <==> t.leaseUntil.value <= r.selectedAt)
  {
    hide Run, AllSettled;
    RunRecoveriesSound(cfg, START, ops);
    RunLeasedLater(cfg, START, ops);
    var w := Run(cfg, START, ops);
    if WouldDefer(w, id) {
      assert RecoverySound(w.db, w.recoveries[id]) && LeasedLater(cfg, w.db, w.recoveries[id]);
    }
  }

  /** So the update is safe whenever the lease it releases is the one that was selected. */
  lemma DeferredOnlyWhenLeaseUnchanged(cfg: Config, ops: seq<Op>, id: nat)
    ensures var w := Run(cfg, START, ops);
      WouldDefer(w, id) && w.db.queue.tasks[w.recoveries[id].task].leaseUntil.value <= w.recoveries[id].selectedAt ==>
        AllSettled(w.db.fences, w.recoveries[id].task)
  {
    hide Run, AllSettled;
    LeaseShowsLifetime(cfg, ops, id);
    DeferredOnlyWhenSettled(cfg, ops, id);
  }

  /** And it is always safe less than a lease duration after the selection, whatever ran in
      between. */
  lemma DeferredWithinLeaseDuration(cfg: Config, ops: seq<Op>, id: nat)
    ensures var w := Run(cfg, START, ops);
      WouldDefer(w, id) && w.db.now < w.recoveries[id].selectedAt + cfg.leaseDuration ==>
        AllSettled(w.db.fences, w.recoveries[id].task)
  {
    hide Run, AllSettled;
    RunLeasedLater(cfg, START, ops);
    LeaseShowsLifetime(cfg, ops, id);
    DeferredOnlyWhenSettled(cfg, ops, id);
    var w := Run(cfg, START, ops);
    if WouldDefer(w, id) {
      assert LeasedLater(cfg, w.db, w.recoveries[id]);
    }
  }
}
