/** What the other transactions of the controller do, exactly, and to whom they answer. */
module DispatchLaws {
  import opened Options
  import opened Ledger
  import opened DispatchSpec
  import opened WorkSpec
  import opened LedgerRuns
  import opened FenceSafety
  import opened ReserveLaws

  ghost predicate Owned(db: Db, lease: DispatchLease) {
    var f := if lease.fence.Some? then lease.fence.value else lease.capture;
    f in db.fences.attempts && db.fences.attempts[f].owner == Some(lease.owner)
    && db.fences.attempts[f].generation == lease.generation && db.fences.attempts[f].active == lease.capture
  }

  /** A request is sent exactly by the holder of a running lease, once its reservation of this very
      day is made, while its capture is public and its work task is leased to the same case. */
  lemma BegunExactly(db: Db, lease: DispatchLease)
    ensures BeginStep(db, lease).1.None? <==>
      && Owned(db, lease) && PublicNow(db, lease.capture)
      && var row := db.fences.attempts[lease.FenceKey()];
      && row.state == Admitted && !row.legacy && Later(row.leaseUntil, db.now)
      && row.reserved.Some? && row.reserved.value.day == db.now / 86_400_000_000
      && row.taskKey == (if lease.caseFence.Some? then Some(lease.caseFence.value.task) else None)
      && CheckCaseFence(db, lease.caseFence).None?
  {
  }

  /** Sending changes the fence's state and records when; nothing else. */
  lemma BegunState(db: Db, lease: DispatchLease)
    requires BeginStep(db, lease).1.None?
    ensures var f := lease.FenceKey();
      && f in db.fences.attempts
      && BeginStep(db, lease).0 == db.(fences := db.fences.(attempts := db.fences.attempts[
           f := db.fences.attempts[f].(state := Intent,
                                       audit := db.fences.attempts[f].audit.(intentAt := Some(db.now)))]))
  {
    hide CheckCaseFence, PublicAdmission, CaseHeld;
  }

  /** Deferring is for the holder of an undispatched fence, with a reason of at most 64 characters,
      and sets the fence aside until then. */
  lemma DeferredExactly(db: Db, lease: DispatchLease, reason: string, retryAt: Time)
    ensures DeferStep(db, lease, reason, retryAt).1.None? <==> |reason| <= 64 && HoldsFence(db, lease)
    ensures DeferStep(db, lease, reason, retryAt).1.None? ==>
      var f := lease.FenceKey();
      && f in db.fences.attempts
      && DeferStep(db, lease, reason, retryAt).0 == db.(fences := db.fences.(attempts := db.fences.attempts[
           f := db.fences.attempts[f].(state := NoDispatch, leaseUntil := None, retryAfter := Some(retryAt),
                                       audit := db.fences.attempts[f].audit.(reason := Given(reason)))]))
    ensures DeferStep(db, lease, reason, retryAt).1.Some? ==> DeferStep(db, lease, reason, retryAt).0 == db
  {
  }

  /** A result is bound exactly for the holder of a dispatched fence, if the receipt names the
      persisted response of its public capture and nothing else was bound before. */
  lemma ObservedExactly(db: Db, lease: DispatchLease, receipt: Receipt)
    ensures ObserveStep(db, lease, receipt).1.None? <==>
      && receipt.capture == lease.capture && Owned(db, lease) && PublicNow(db, lease.capture)
      && lease.capture in db.evidence.results
      && var row, r := db.fences.attempts[lease.FenceKey()], db.evidence.results[lease.capture];
      && (row.state == Intent || row.state == Unknown || row.state == Result)
      && |r.body| <= 131072
      && receipt == Receipt(lease.capture, r.digest, r.status, r.errorClass)
      && (row.bound.Some? ==> row.bound.value == Bound(r.digest, r.observedAt))
  {
  }

  /** The fence then has that response bound: as a result, or as unknown if it carries no status. */
  lemma ObservedState(db: Db, lease: DispatchLease, receipt: Receipt)
    requires ObserveStep(db, lease, receipt).1.None?
    ensures var f, after := lease.FenceKey(), ObserveStep(db, lease, receipt).0;
      && f in after.fences.attempts && lease.capture in db.evidence.results && f in db.fences.attempts
      && var row, r := db.fences.attempts[f], db.evidence.results[lease.capture];
      && after == db.(fences := after.fences)
      && after.fences.attempts == db.fences.attempts[f := after.fences.attempts[f]]
      && after.fences.attempts[f].bound == Some(Bound(r.digest, r.observedAt))
      && after.fences.attempts[f].answer == Some(Answer(r.status, r.errorClass))
      && after.fences.attempts[f].state == (if r.status == 0 then Unknown else Result)
      && after.fences.attempts[f].audit.resultAt ==
           (if row.audit.resultAt.Some? then row.audit.resultAt else Some(db.now))
  {
  }

  /** The fence has bound this very response as its result, and it can be served. */
  ghost predicate Servable(db: Db, row: Attempt) {
    && row.active in db.evidence.results
    && var r := db.evidence.results[row.active];
    && !row.legacy && row.state == Result && row.bound == Some(Bound(r.digest, r.observedAt))
    && row.answer == Some(Answer(r.status, r.errorClass)) && r.status > 0 && |r.body| <= 131072
  }

  /** A replay is served exactly for an admitted request whose alias leads to a fence of its own
      identity and task, under the same case, whose public capture still has the bound response
      with its own digest; and it is that response. */
  lemma ReplayExactly(db: Db, req: DispatchRequest)
    ensures Replay(db, req).ReplayBody? <==>
      && AdmitRequest(db, req.(duration := 0)).None? && CheckCaseFence(db, req.caseFence).None?
      && req.capture in db.fences.aliases && db.fences.aliases[req.capture] in db.fences.attempts
      && var row := db.fences.attempts[db.fences.aliases[req.capture]];
      && row.semantic == req.capture.identity && PublicNow(db, row.active) && Servable(db, row)
      && row.taskKey == (if req.caseFence.Some? then Some(req.caseFence.value.task) else None)
      && db.evidence.results[row.active].digest == Sha256(db.evidence.results[row.active].body)
    ensures Replay(db, req).ReplayBody? ==>
      var row := db.fences.attempts[db.fences.aliases[req.capture]];
      Replay(db, req) == ReplayBody(db.evidence.results[row.active], row.active)
  {
    hide CheckCaseFence;
  }

  /** A persisted response of a fence that was sent for the task, and that nothing contradicts. */
  ghost predicate Recoverable(db: Db, t: TaskKey, row: Attempt) {
    && row.taskKey == Some(t) && (row.state == Intent || row.state == Unknown) && !row.legacy
    && row.active in db.evidence.captures && db.now < db.evidence.captures[row.active].expiresAt
    && row.active in db.evidence.results
    && row.active.identity.task == row.semantic.task && row.active.identity.source == row.semantic.source
    && var r := db.evidence.results[row.active];
    && r.status > 0 && |r.body| <= 131072 && (row.bound.Some? ==> row.bound.value == Bound(r.digest, r.observedAt))
  }

  /** TaskRecovery binds exactly the recoverable responses and touches nothing else. */
  lemma ReconciledExactly(db: Db, t: TaskKey, f: CaptureKey)
    requires f in db.fences.attempts
    ensures var row, after := db.fences.attempts[f], ReconcileStep(db, t);
      && after == db.(fences := db.fences.(attempts := after.fences.attempts))
      && after.fences.attempts.Keys == db.fences.attempts.Keys
      && (!Recoverable(db, t, row) ==> after.fences.attempts[f] == row)
      && (Recoverable(db, t, row) ==>
            var r := db.evidence.results[row.active];
            && after.fences.attempts[f].state == Result
            && after.fences.attempts[f].bound == Some(Bound(r.digest, r.observedAt))
            && after.fences.attempts[f].answer == Some(Answer(r.status, r.errorClass))
            && after.fences.attempts[f].owner == row.owner && after.fences.attempts[f].generation == row.generation)
  {
  }

  /** What recovery may conclude from one attempt: nothing was sent, or its response is kept. */
  lemma RecoverableExactly(db: Db, row: Attempt)
    ensures SafeToRetry(row) <==> !row.legacy && row.state in {Prepared, NoDispatch, Admitted}
    ensures Replayable(db, row) <==>
      && row.active in db.evidence.captures && db.now < db.evidence.captures[row.active].expiresAt && Servable(db, row)
  {
  }

  // ---------------------------------------------------------------------- the first response

  /** A response is persisted exactly for a public capture that has none. */
  lemma PersistedExactly(db: Db, k: CaptureKey, r: Response)
    ensures var e := EvidenceNext(db, PersistResponse(k, r));
      && (PublicNow(db, k) && k !in db.evidence.results ==> e == db.evidence.(results := db.evidence.results[k := r]))
      && (!PublicNow(db, k) || k in db.evidence.results ==> e == db.evidence)
  {
  }

  /** The first response of a capture stays, whatever else is persisted, until the capture goes. */
  lemma {:induction false} FirstResponseStays(cfg: Config, w: World, ops: seq<Op>, k: CaptureKey)
    requires k in w.db.evidence.results && OnEvidence(DropCapture(k)) !in ops
    ensures var e := Run(cfg, w, ops).db.evidence; k in e.results && e.results[k] == w.db.evidence.results[k]
    decreases |ops|
  {
    hide FenceNext, QueueNext, EvidenceNext, NextRecoveries, NextDispatches, NextCharges, NextApplied, RecoveredQueue;
    if ops != [] {
      StepKeepsResponse(cfg, w, ops[0], k);
      FirstResponseStays(cfg, Step(cfg, w, ops[0]), ops[1..], k);
    }
  }

  lemma StepKeepsResponse(cfg: Config, w: World, op: Op, k: CaptureKey)
    requires k in w.db.evidence.results && op != OnEvidence(DropCapture(k))
    ensures var e := Step(cfg, w, op).db.evidence; k in e.results && e.results[k] == w.db.evidence.results[k]
  {
    hide NextRecoveries, NextDispatches, NextCharges, NextApplied, RecoveredQueue, QueueNext;
    if op.OnFence? { FenceKeepsEvidence(cfg, w.db, op.fence); }
  }

  lemma FenceKeepsEvidence(cfg: Config, db: Db, op: FenceOp)
    ensures FenceNext(cfg, db, op).evidence == db.evidence
  {
    hide AdmitRequest, CheckCaseFence, Resolve, Decide, Linked, ChargeBudget, ReserveRefusal, MayDispatch, MayObserve;
  }
}
