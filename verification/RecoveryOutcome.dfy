/**
What recovery of an expired lease writes, by the states of the row: it is deferred only if nothing
that was sent for it is unanswered, and held otherwise.
*/
module RecoveryOutcome {
  import opened Options
  import opened Ledger
  import opened DispatchSpec
  import opened WorkSpec
  import opened LedgerRuns
  import opened RecoverySafety
  import opened RecoveryWindow
  import opened WorkStore

  // ----------------------------------------------------------------- one conditional update

  ghost predicate RunOut(db: Db, t: WorkTask) {
    t.state == Leased && t.leaseUntil.Some? && t.leaseUntil.value <= db.now
  }

  /** The update changes the row exactly if its lease has run out under that generation; the row
      is then released, deferred on a verdict of safe and held on any other. */
  lemma UpdatedRow(db: Db, k: TaskKey, generation: int, v: Verdict)
    ensures RecoverStep(db, k, generation, v).1 <==>
      k in db.queue.tasks && db.queue.tasks[k].generation == generation && RunOut(db, db.queue.tasks[k])
    ensures !RecoverStep(db, k, generation, v).1 ==> RecoverStep(db, k, generation, v).0 == db.queue
    ensures RecoverStep(db, k, generation, v).1 ==>
      var q, t := RecoverStep(db, k, generation, v).0, db.queue.tasks[k];
      && k in q.tasks && q == db.queue.(tasks := db.queue.tasks[k := q.tasks[k]], events := db.queue.events + {k})
      && q.tasks[k].state == (if v.Safe? then Deferred else Held)
      && q.tasks[k].owner == None && q.tasks[k].leaseUntil == None && q.tasks[k].retryAfter == db.now
      && q.tasks[k].generation == t.generation && q.tasks[k].born == t.born && q.tasks[k].expiresAt == t.expiresAt
      && q.tasks[k].reason == (match v case Safe(_) => RecoveredBeforeDispatchOrReplay
                                       case Unsafe => UnknownDispatchOrExpiredResponse
                                       case NoController => ExpiredLeaseNeedsReconcile)
      && q.tasks[k].priority == (if v.Safe? && v.progressed && k.kind == Matcher then 100 else t.priority)
  {
  }

  // ------------------------------------------------------------------------- over every run

  /** The row of the selected task is leased before the update, and in this state after it. */
  ghost predicate Becomes(cfg: Config, w: World, id: nat, s: WorkState) {
    && id in w.recoveries
    && var k, v := w.recoveries[id].task, Step(cfg, w, OnRecovery(Update(id)));
    && k in w.db.queue.tasks && w.db.queue.tasks[k].state == Leased
    && k in v.db.queue.tasks && v.db.queue.tasks[k].state == s
  }

  lemma UpdateIsRecover(cfg: Config, w: World, id: nat)
    requires id in w.recoveries
    ensures Step(cfg, w, OnRecovery(Update(id))).db.queue ==
      var r := w.recoveries[id];
      if r.stage.Judged? then RecoverStep(w.db, r.task, r.generation, r.stage.verdict).0 else w.db.queue
  {
    hide RecoverStep, ReconcileStep;
  }

  lemma DeferredMeansSafe(cfg: Config, w: World, id: nat)
    requires Becomes(cfg, w, id, Deferred)
    ensures WouldDefer(w, id)
  {
    hide Step, RecoverStep;
    UpdateIsRecover(cfg, w, id);
    var r := w.recoveries[id];
    if r.stage.Judged? { UpdatedRow(w.db, r.task, r.generation, r.stage.verdict); }
  }

  /** In every reachable state, if the update turns the leased row of the selected lifetime into a
      deferred one, every dispatch attempt of the task is undispatched or has a bound response. */
  lemma DeferredRowWasSettled(cfg: Config, ops: seq<Op>, id: nat)
    ensures var w := Run(cfg, START, ops);
      Becomes(cfg, w, id, Deferred) && w.db.queue.tasks[w.recoveries[id].task].born == w.recoveries[id].born ==>
        AllSettled(w.db.fences, w.recoveries[id].task)
  {
    hide Run, Step, AllSettled, Becomes;
    var w := Run(cfg, START, ops);
    if Becomes(cfg, w, id, Deferred) {
      DeferredMeansSafe(cfg, w, id);
      DeferredOnlyWhenSettled(cfg, ops, id);
    }
  }

  /** The same by what the tables show: the lease is the one that was selected, or less than a lease
      duration has passed since. */
  lemma DeferredRowWithinWindow(cfg: Config, ops: seq<Op>, id: nat)
    ensures var w := Run(cfg, START, ops);
      Becomes(cfg, w, id, Deferred)
      && (w.db.now < w.recoveries[id].selectedAt + cfg.leaseDuration
          || (w.db.queue.tasks[w.recoveries[id].task].leaseUntil.Some?
              && w.db.queue.tasks[w.recoveries[id].task].leaseUntil.value <= w.recoveries[id].selectedAt)) ==>
        AllSettled(w.db.fences, w.recoveries[id].task)
  {
    hide Run, Step, AllSettled, Becomes;
    var w := Run(cfg, START, ops);
    if Becomes(cfg, w, id, Deferred) {
      DeferredMeansSafe(cfg, w, id);
      DeferredOnlyWhenLeaseUnchanged(cfg, ops, id);
      DeferredWithinLeaseDuration(cfg, ops, id);
    }
  }

  /** A leased row that the update releases without deferring it is held, and no other state is
      ever written. */
  lemma ReleasedIsDeferredOrHeld(cfg: Config, w: World, id: nat, s: WorkState)
    requires Becomes(cfg, w, id, s)
    ensures s == Leased || s == Deferred || s == Held
    ensures s == Held ==> !WouldDefer(w, id)
    ensures var r, t := w.recoveries[id], w.db.queue.tasks[w.recoveries[id].task];
      r.stage.Judged? && RunOut(w.db, t) && t.generation == r.generation ==> s != Leased
  {
    hide Step, RecoverStep;
    UpdateIsRecover(cfg, w, id);
    var r := w.recoveries[id];
    if r.stage.Judged? { UpdatedRow(w.db, r.task, r.generation, r.stage.verdict); }
  }

  // ------------------------------------------------------------- when nothing runs in between

  /** Every attempt of the task is unsent and not held as unproven, or its response is kept. */
  ghost predicate Accounted(db: Db, k: TaskKey) {
    forall f :: f in db.fences.attempts && db.fences.attempts[f].taskKey == Some(k) ==>
      var row := db.fences.attempts[f];
      (!row.legacy && row.state in {Prepared, NoDispatch, Admitted}) || Replayable(db, row)
  }

  /** Some attempt of the task has its response kept. */
  ghost predicate Progressed(db: Db, k: TaskKey) {
    exists f :: f in db.fences.attempts && db.fences.attempts[f].taskKey == Some(k)
      && Replayable(db, db.fences.attempts[f])
  }

  /** recoverExpired on one expired lease: it is deferred exactly if there is a controller and,
      after binding what can be bound, every attempt is accounted for; otherwise it is held.  A
      deferred matcher task with a kept response becomes urgent. */
  lemma RecoveredExactly(cfg: Config, db: Db, k: TaskKey)
    requires k in db.queue.tasks && RunOut(db, db.queue.tasks[k])
    requires RecoverItem(cfg, db, k, db.queue.tasks[k].generation).Some?
    ensures var after := RecoverItem(cfg, db, k, db.queue.tasks[k].generation).value;
      && k in after.queue.tasks
      && (after.queue.tasks[k].state == Deferred <==> cfg.dispatchEnabled && Accounted(ReconcileStep(db, k), k))
      && (after.queue.tasks[k].state != Deferred ==> after.queue.tasks[k].state == Held)
      && after.queue.tasks[k].priority ==
           (if after.queue.tasks[k].state == Deferred && k.kind == Matcher && Progressed(ReconcileStep(db, k), k)
            then 100 else db.queue.tasks[k].priority)
      && after.fences == (if cfg.dispatchEnabled then ReconcileStep(db, k).fences else db.fences)
  {
    hide MayReconcile, Bind, Replayable, RecoverStep;
    var bound := if cfg.dispatchEnabled then ReconcileStep(db, k) else db;
    var generation := db.queue.tasks[k].generation;
    assert bound.queue == db.queue && bound.now == db.now;
    UpdatedRow(bound, k, generation, JudgeStage(cfg, bound, k).verdict);
    AccountedExactly(bound, k);
    ProgressedExactly(bound, k);
  }

  lemma ProgressedExactly(db: Db, k: TaskKey)
    ensures AnyReplayable(db, k) <==> Progressed(db, k)
  {
    hide Replayable;
    if Progressed(db, k) {
      var f :| f in db.fences.attempts && db.fences.attempts[f].taskKey == Some(k)
          && Replayable(db, db.fences.attempts[f]);
      assert f in TaskAttempts(db, k);
    }
  }

  /** The four statements of a recovery, with nothing in between, are the recovery of that item. */
  lemma StatementsAreItem(cfg: Config, w: World, id: nat, k: TaskKey)
    requires id !in w.recoveries && k in w.db.queue.tasks && RunOut(w.db, w.db.queue.tasks[k])
    requires RecoverItem(cfg, w.db, k, w.db.queue.tasks[k].generation).Some?
    ensures var selected := Step(cfg, w, OnRecovery(Select(id, k)));
      var bound := Step(cfg, selected, OnRecovery(Rebind(id)));
      var judged := Step(cfg, bound, OnRecovery(Judge(id)));
      && Step(cfg, judged, OnRecovery(Update(id))).db == RecoverItem(cfg, w.db, k, w.db.queue.tasks[k].generation).value
      && Step(cfg, judged, OnRecovery(Update(id))).recoveries == w.recoveries
  {
    hide MayReconcile, Bind, JudgeStage, RecoverStep;
    var after := if cfg.dispatchEnabled then ReconcileStep(w.db, k) else w.db;
    assert after == after.(queue := w.db.queue);
    var selected := Step(cfg, w, OnRecovery(Select(id, k)));
    assert selected.db == w.db && selected.recoveries == w.recoveries[id := selected.recoveries[id]];
    var bound := Step(cfg, selected, OnRecovery(Rebind(id)));
    assert bound.db == after;
    var judged := Step(cfg, bound, OnRecovery(Judge(id)));
    assert judged.recoveries[id].stage == JudgeStage(cfg, after, k) && judged.db == after;
    assert judged.recoveries - {id} == w.recoveries;
  }

  lemma AccountedExactly(db: Db, k: TaskKey)
    ensures AllSafe(db, k) <==> Accounted(db, k)
  {
    hide Replayable;
    if Accounted(db, k) {
      forall f | f in TaskAttempts(db, k)
        ensures SafeToRetry(db.fences.attempts[f]) || Replayable(db, db.fences.attempts[f])
      {
      }
    }
    if AllSafe(db, k) {
      forall f | f in db.fences.attempts && db.fences.attempts[f].taskKey == Some(k)
        ensures SafeToRetry(db.fences.attempts[f]) || Replayable(db, db.fences.attempts[f])
      {
        assert f in TaskAttempts(db, k);
      }
    }
  }

  /** It gives up exactly on more than 256 attempts. */
  lemma GivesUpExactly(cfg: Config, db: Db, k: TaskKey, generation: int)
    ensures RecoverItem(cfg, db, k, generation).None? <==>
      cfg.dispatchEnabled
      && |set f | f in db.fences.attempts && ReconcileStep(db, k).fences.attempts[f].taskKey == Some(k)| > 256
  {
    hide MayReconcile, Bind;
    assert TaskAttempts(ReconcileStep(db, k), k)
        == set f | f in db.fences.attempts && ReconcileStep(db, k).fences.attempts[f].taskKey == Some(k);
  }
}
