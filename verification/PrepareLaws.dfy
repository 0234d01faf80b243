/**
What Prepare answers, exactly, and who may touch a fence: a live lease excludes everybody else,
and a fence that is not yet due is granted to nobody.
*/
module PrepareLaws {
  import opened Options
  import opened Ledger
  import opened DispatchSpec
  import opened WorkSpec
  import opened LedgerRuns
  import opened FenceSafety
  import opened QueueSafety
  import opened DispatchProgress

  // -------------------------------------------------------------------- who is admitted

  /** The capture is retained, unexpired and public, and the request tells the truth about it. */
  ghost predicate TruthfulRequest(db: Db, req: DispatchRequest) {
    && req.capture in db.evidence.captures && db.now < db.evidence.captures[req.capture].expiresAt
    && req.infoHash in db.evidence.publicHashes
    && req.capture.identity.task == req.task && req.capture.identity.source == req.source
    && req.capture.identity.infoHash == req.infoHash && req.capture.identity.origin == NaturalCapture
    && (req.semantic.Some? ==> req.semantic.value == req.capture.identity)
  }

  /** A request passes exactly when its task may be dispatched with its candidate source, its
      case fence and lease duration are in range, and it tells the truth. */
  lemma AdmittedExactly(db: Db, req: DispatchRequest)
    ensures AdmitRequest(db, req).None? <==>
      && req.task != JunkPurgeTask && (req.source == NoSource <==> req.task !in {MatcherRerank, MatcherEmbedding})
      && (req.caseFence.Some? ==>
            var c := req.caseFence.value; 0 < |c.owner| <= 64 && c.generation > 0 && c.recheck != Missing)
      && 0 <= req.duration <= 900_000_000
      && TruthfulRequest(db, req)
  {
  }

  /** Why a request is refused: an invalid task or source first, then its case fence or duration, then
      whatever its capture does not say, then an origin or identity that does not fit. */
  lemma AdmissionRefusals(db: Db, req: DispatchRequest)
    ensures req.task == JunkPurgeTask || (req.source == NoSource <==> req.task in {MatcherRerank, MatcherEmbedding}) ==>
      AdmitRequest(db, req) == Some(CaptureUnavailable)
    ensures AdmitRequest(db, req) == Some(LeaseInvalid) ==>
      (req.caseFence.Some? || req.duration < 0 || req.duration > 900_000_000)
    ensures AdmitRequest(db, req) == Some(PrivacyBlocked) ==>
      !(&& req.capture in db.evidence.captures && db.evidence.captures[req.capture].expiresAt > db.now
        && req.capture.identity.infoHash in db.evidence.publicHashes && req.capture.identity.task == req.task
        && req.capture.identity.source == req.source && req.capture.identity.infoHash == req.infoHash)
  {
  }

  /** The case fence lets a request through exactly when the task row is leased to that owner and
      generation right now, for the source and policy it was made for, and the recheck passes. */
  lemma CaseFenceExactly(db: Db, c: CaseFence)
    ensures CheckCaseFence(db, Some(c)).None? <==>
      && c.task in db.queue.tasks && db.queue.tasks[c.task].state == Leased
      && db.queue.tasks[c.task].owner == Some(c.owner) && db.queue.tasks[c.task].generation == c.generation
      && Later(db.queue.tasks[c.task].leaseUntil, db.now)
      && c.sourceDigest == c.task.sourceDigest && c.policyDigest == c.task.policyDigest && c.recheck == Passes
    ensures CheckCaseFence(db, None).None?
    ensures CheckCaseFence(db, Some(c)) == Some(SourceChanged) ==> c.recheck == Fails && CaseHeld(db, c)
  {
  }

  // ------------------------------------------------------- the answer on an existing fence

  /** Whatever is not admitted, or not held by its case, is refused for that and changes nothing. */
  lemma UnadmittedRefused(db: Db, req: DispatchRequest, token: string)
    ensures AdmitRequest(db, req).Some? ==> PrepareStep(db, req, token) == (db, Refused(AdmitRequest(db, req).value))
    ensures FencesKeyed(db.fences) && AdmitRequest(db, req).None? && CheckCaseFence(db, req.caseFence).Some? ==>
      PrepareStep(db, req, token) == (db, Refused(CheckCaseFence(db, req.caseFence).value))
  {
    hide AdmitRequest, CheckCaseFence, FencesKeyed, Resolve;
    if FencesKeyed(db.fences) { ResolveKeyed(db, req.capture); }
  }

  /** A usable response of the fence's active capture is still served. */
  ghost predicate Answered(db: Db, row: Attempt) {
    && row.active in db.evidence.results && db.evidence.results[row.active].status > 0
    && |db.evidence.results[row.active].body| <= 131072
    && row.active in db.evidence.captures && row.active.identity.task != JunkPurgeTask
    && db.now < db.evidence.captures[row.active].expiresAt
    && row.active.identity.infoHash in db.evidence.publicHashes
  }

  /** Nothing has been sent for the fence, and it is not held as unproven. */
  ghost predicate Open(row: Attempt) {
    !row.legacy && (row.state == Prepared || row.state == NoDispatch || row.state == Admitted)
  }

  /** The fence of an admitted request, and the request may use it. */
  ghost predicate Finds(db: Db, req: DispatchRequest, f: CaptureKey) {
    && FencesKeyed(db.fences) && AdmitRequest(db, req).None? && CheckCaseFence(db, req.caseFence).None?
    && req.capture.identity in db.fences.index && db.fences.index[req.capture.identity] == f
    && f in db.fences.attempts
    && (db.fences.attempts[f].taskKey.None? || db.fences.attempts[f].taskKey == CaseTask(req.caseFence))
  }

  lemma AliasesNeverConflict(x: Fences, f: CaptureKey, k: CaptureKey, active: CaptureKey)
    requires FencesKeyed(x) && f in x.attempts && k.identity == f.identity && active.identity == f.identity
    ensures Linked(x.aliases, k, active, f).Some?
  {
  }

  lemma FoundRow(db: Db, req: DispatchRequest, f: CaptureKey, token: string)
    requires Finds(db, req, f)
    ensures var row := db.fences.attempts[f];
      var d := Decide(row, false, row.legacy, Retained(db, row.active), req, token, f, db.now);
      && PrepareStep(db, req, token).1 == d.1 && f in PrepareStep(db, req, token).0.fences.attempts
      && PrepareStep(db, req, token).0.fences.attempts[f] == if Commits(d.1) then d.0 else row
    ensures db.fences.attempts[f].semantic == req.capture.identity && req.capture.identity.task == req.task
  {
    hide CheckCaseFence, Retained, Decide, Linked;
    var row := db.fences.attempts[f];
    ResolveKeyed(db, req.capture);
    AliasesNeverConflict(db.fences, f, req.capture, row.active);
  }

  /** Prepare grants an existing fence exactly when nothing was sent for it, no usable response is
      there, its lease has run out and its retry time has come. */
  lemma GrantedExactly(db: Db, req: DispatchRequest, f: CaptureKey, token: string)
    requires Finds(db, req, f)
    ensures var row := db.fences.attempts[f];
      PrepareStep(db, req, token).1.Granted? <==>
        && Open(row) && !Answered(db, row) && !Later(row.leaseUntil, db.now)
        && (row.state == NoDispatch ==> !Later(row.retryAfter, db.now))
  {
    FoundRow(db, req, f, token);
  }

  /** The granted lease is the next generation, for the asked or the default duration, and the
      fence shows it. */
  lemma GrantedLease(db: Db, req: DispatchRequest, f: CaptureKey, token: string)
    requires Finds(db, req, f) && PrepareStep(db, req, token).1.Granted?
    ensures var row, after := db.fences.attempts[f], PrepareStep(db, req, token).0.fences.attempts[f];
      && PrepareStep(db, req, token).1.lease ==
           DispatchLease(req.capture, Some(f), token, row.generation + 1, req.caseFence)
      && after.owner == Some(token) && after.generation == row.generation + 1 && after.active == req.capture
      && after.leaseUntil == Some(db.now + if req.duration == 0 then 60_000_000 else req.duration)
      && after.state == Prepared && after.retryAfter == None && after.reserved == row.reserved
      && after.audit.reason == NoReason
      && after.taskKey == if row.taskKey.Some? then row.taskKey else CaseTask(req.caseFence)
  {
    FoundRow(db, req, f, token);
  }

  /** Prepare answers with a replay exactly when the usable response carries its own digest and
      agrees with what the fence has bound, and then the fence has bound it. */
  lemma ReplayedExactly(db: Db, req: DispatchRequest, f: CaptureKey, token: string)
    requires Finds(db, req, f)
    ensures var row := db.fences.attempts[f];
      PrepareStep(db, req, token).1 == Replayed <==>
        && !row.legacy && Answered(db, row)
        && var r := db.evidence.results[row.active];
        && r.digest == Sha256(r.body) && (row.bound.Some? ==> row.bound.value == Bound(r.digest, r.observedAt))
    ensures PrepareStep(db, req, token).1 == Replayed ==>
      var r := db.evidence.results[db.fences.attempts[f].active];
      var after := PrepareStep(db, req, token).0.fences.attempts[f];
      && after.state == Result && after.bound == Some(Bound(r.digest, r.observedAt))
      && after.answer == Some(Answer(r.status, r.errorClass))
  {
    FoundRow(db, req, f, token);
  }

  /** A usable response that is not its own digest's, or not the one bound first, is refused and
      changes nothing. */
  lemma MismatchRefused(db: Db, req: DispatchRequest, f: CaptureKey, token: string)
    requires Finds(db, req, f) && !db.fences.attempts[f].legacy && Answered(db, db.fences.attempts[f])
    ensures var row := db.fences.attempts[f];
      var r := db.evidence.results[row.active];
      && (r.digest != Sha256(r.body) || (row.bound.Some? && row.bound.value.digest != r.digest) ==>
            PrepareStep(db, req, token) == (db, Refused(CaptureUnavailable)))
      && (r.digest == Sha256(r.body) && row.bound.Some? && row.bound.value.digest == r.digest
          && row.bound.value.observedAt != r.observedAt ==>
            PrepareStep(db, req, token) == (db, Refused(OutcomeUnknown)))
  {
    FoundRow(db, req, f, token);
    NotCommitted(db, req, token);
  }

  lemma NotCommitted(db: Db, req: DispatchRequest, token: string)
    ensures !Commits(PrepareStep(db, req, token).1) ==> PrepareStep(db, req, token).0 == db
  {
    hide AdmitRequest, Resolve, CheckCaseFence, Foreign, Linked, Retained, Decide;
  }

  /** Everything else is busy, not due, refused for its response, or closed as uncertain. */
  lemma OtherAnswers(db: Db, req: DispatchRequest, f: CaptureKey, token: string)
    requires Finds(db, req, f)
    ensures var row, answer := db.fences.attempts[f], PrepareStep(db, req, token).1;
      !(Answered(db, row) && !row.legacy) ==>
        && (answer == Busy <==>
              Later(row.leaseUntil, db.now)
              && (row.state == Intent || (Open(row) && (row.state == NoDispatch ==> !Later(row.retryAfter, db.now)))))
        && (answer.NotDue? <==> Open(row) && row.state == NoDispatch && Later(row.retryAfter, db.now))
        && (answer.NotDue? ==> row.retryAfter == Some(answer.retryAfter))
        && (answer == Uncertain <==> !Open(row) && !(row.state == Intent && Later(row.leaseUntil, db.now)))
    ensures PrepareStep(db, req, token).1 == Uncertain ==>
      var after := PrepareStep(db, req, token).0.fences.attempts[f];
      after.state == Unknown && after.audit.reason == UncertainOrExpiredResult
  {
    FoundRow(db, req, f, token);
  }

  /** A request of another task than the fence's is refused. */
  lemma ForeignRefused(db: Db, req: DispatchRequest, token: string)
    requires FencesKeyed(db.fences) && AdmitRequest(db, req).None? && CheckCaseFence(db, req.caseFence).None?
    requires req.capture.identity in db.fences.index
    requires var row := db.fences.attempts[db.fences.index[req.capture.identity]];
      row.taskKey.Some? && row.taskKey != CaseTask(req.caseFence)
    ensures PrepareStep(db, req, token) == (db, Refused(LeaseInvalid))
  {
    hide Decide, Retained, Linked;
    ResolveKeyed(db, req.capture);
  }

  // --------------------------------------------------------------- a new fence, otherwise

  /** A request without fence or older capture is granted exactly if its caller has just captured
      it and no response is there; otherwise its fence is closed at once. */
  lemma NewFenceExactly(db: Db, req: DispatchRequest, token: string)
    requires FencesKeyed(db.fences) && AdmitRequest(db, req).None? && CheckCaseFence(db, req.caseFence).None?
    requires req.capture.identity !in db.fences.index && forall c :: !OtherBuild(db, req.capture, c)
    ensures PrepareStep(db, req, token).1.Granted? <==>
      req.freshCapture && !(req.capture in db.evidence.results && |db.evidence.results[req.capture].body| <= 131072)
    ensures var x := PrepareStep(db, req, token).0.fences;
      !PrepareStep(db, req, token).1.Granted? && !PrepareStep(db, req, token).1.Refused? ==>
        req.capture in x.attempts && Closed(x.attempts[req.capture])
  {
    hide AdmitRequest, CheckCaseFence, Retained, HasSibling;
    UnheardMeans(db, req);
    NoRowNoAlias(db.fences, req.capture);
  }

  // ------------------------------------------------------------------- a live lease excludes

  /** Owner, generation and capture of a fence. */
  ghost predicate SameHolder(a: Attempt, b: Attempt) {
    b.owner == a.owner && b.generation == a.generation && b.active == a.active
  }

  /** The fence is leased right now, or told to wait. */
  ghost predicate Taken(db: Db, row: Attempt) {
    Later(row.leaseUntil, db.now) || (row.state == NoDispatch && Later(row.retryAfter, db.now))
  }

  lemma DecideSparesTaken(row: Attempt, legacy: bool, retained: Option<Response>, req: DispatchRequest, token: string,
                          f: CaptureKey, db: Db)
    requires Taken(db, row)
    ensures !Decide(row, false, legacy, retained, req, token, f, db.now).1.Granted?
    ensures SameHolder(row, Decide(row, false, legacy, retained, req, token, f, db.now).0)
    ensures var after := Decide(row, false, legacy, retained, req, token, f, db.now).0;
      after.leaseUntil == row.leaseUntil && after.retryAfter == row.retryAfter
      && (after.state == row.state || !Undispatched(after.state))
  {
  }

  /** Whatever anybody prepares, a fence that is leased or told to wait keeps its holder. */
  lemma PrepareSparesTaken(db: Db, req: DispatchRequest, token: string, f: CaptureKey)
    requires FencesKeyed(db.fences) && f in db.fences.attempts && Taken(db, db.fences.attempts[f])
    ensures var x := PrepareStep(db, req, token).0.fences;
      && f in x.attempts && SameHolder(db.fences.attempts[f], x.attempts[f])
      && x.attempts[f].leaseUntil == db.fences.attempts[f].leaseUntil
      && x.attempts[f].retryAfter == db.fences.attempts[f].retryAfter
      && (x.attempts[f].state == db.fences.attempts[f].state || !Undispatched(x.attempts[f].state))
    ensures req.capture.identity == f.identity ==> !PrepareStep(db, req, token).1.Granted?
  {
    hide AdmitRequest, CheckCaseFence, Retained, Linked, Decide, Taken, SameHolder, Undispatched;
    SameHolderItself(db.fences.attempts[f]);
    ResolveKeyed(db, req.capture);
    var row := db.fences.attempts[f];
    if Resolve(db, req.capture).value.key == f {
      var legacy := Resolve(db, req.capture).value.legacy || row.legacy;
      DecideSparesTaken(row, legacy, Retained(db, row.active), req, token, f, db);
    }
  }

  lemma SameHolderItself(row: Attempt)
    ensures SameHolder(row, row)
  {
  }

  /** The holder itself gives the lease up: by deferring, or by finding the budget exhausted. */
  ghost predicate GivesUp(op: Op, f: CaptureKey, row: Attempt) {
    && op.OnFence? && (op.fence.Reserve? || op.fence.DeferDispatch?)
    && op.fence.lease.FenceKey() == f && row.owner == Some(op.fence.lease.owner)
    && op.fence.lease.generation == row.generation
  }

  /** The fence is as it was left: same holder, same lease end and retry time, and still waiting
      unless it has been closed. */
  ghost predicate LeftAlone(a: Attempt, b: Attempt) {
    && SameHolder(a, b) && b.leaseUntil == a.leaseUntil && b.retryAfter == a.retryAfter
    && (a.state == NoDispatch ==> b.state == NoDispatch || !Undispatched(b.state))
    && (!Undispatched(a.state) ==> !Undispatched(b.state))
  }

  lemma OthersLeaveAlone(cfg: Config, db: Db, op: FenceOp, f: CaptureKey)
    requires f in db.fences.attempts && !op.Prepare?
    requires db.fences.attempts[f].state == NoDispatch || !GivesUp(OnFence(op), f, db.fences.attempts[f])
    ensures f in FenceNext(cfg, db, op).fences.attempts
    ensures LeftAlone(db.fences.attempts[f], FenceNext(cfg, db, op).fences.attempts[f])
  {
    hide LeftAlone, ReserveStep, BeginStep, DeferStep, ObserveStep, ReconcileStep, GivesUp;
    LeftAloneItself(db.fences.attempts[f]);
    match op
    case Reserve(lease, scope, daily, monthly) => ReserveLeavesAlone(cfg.calendar, db, op, f);
    case Begin(_) => BeginLeavesAlone(db, op, f);
    case DeferDispatch(_, _, _) => DeferLeavesAlone(db, op, f);
    case Observe(_, _) => ObserveLeavesAlone(db, op, f);
    case Reconcile(t) => ReconcileLeavesAlone(db, t, f);
  }

  /** The rows a step rewrites, and the one it may. */
  lemma ReserveLeavesAlone(cal: Calendar, db: Db, op: FenceOp, f: CaptureKey)
    requires f in db.fences.attempts && op.Reserve?
    requires db.fences.attempts[f].state == NoDispatch || !GivesUp(OnFence(op), f, db.fences.attempts[f])
    ensures var x := ReserveStep(cal, db, op.lease, op.scope, op.daily, op.monthly).0.fences;
      x.attempts.Keys == db.fences.attempts.Keys && LeftAlone(db.fences.attempts[f], x.attempts[f])
  {
    hide PublicAdmission, CheckCaseFence, ChargeBudget;
  }

  lemma BeginLeavesAlone(db: Db, op: FenceOp, f: CaptureKey)
    requires f in db.fences.attempts && op.Begin?
    ensures BeginStep(db, op.lease).0.fences.attempts.Keys == db.fences.attempts.Keys
    ensures LeftAlone(db.fences.attempts[f], BeginStep(db, op.lease).0.fences.attempts[f])
  {
    hide PublicAdmission, CheckCaseFence, CaseHeld;
  }

  lemma DeferLeavesAlone(db: Db, op: FenceOp, f: CaptureKey)
    requires f in db.fences.attempts && op.DeferDispatch?
    requires db.fences.attempts[f].state == NoDispatch || !GivesUp(OnFence(op), f, db.fences.attempts[f])
    ensures DeferStep(db, op.lease, op.reason, op.retryAt).0.fences.attempts.Keys == db.fences.attempts.Keys
    ensures LeftAlone(db.fences.attempts[f], DeferStep(db, op.lease, op.reason, op.retryAt).0.fences.attempts[f])
  {
  }

  lemma ObserveLeavesAlone(db: Db, op: FenceOp, f: CaptureKey)
    requires f in db.fences.attempts && op.Observe?
    ensures ObserveStep(db, op.lease, op.receipt).0.fences.attempts.Keys == db.fences.attempts.Keys
    ensures LeftAlone(db.fences.attempts[f], ObserveStep(db, op.lease, op.receipt).0.fences.attempts[f])
  {
    hide Retained;
  }

  lemma ReconcileLeavesAlone(db: Db, t: TaskKey, f: CaptureKey)
    requires f in db.fences.attempts
    ensures ReconcileStep(db, t).fences.attempts.Keys == db.fences.attempts.Keys
    ensures LeftAlone(db.fences.attempts[f], ReconcileStep(db, t).fences.attempts[f])
  {
    hide Kept;
  }

  lemma PrepareLeavesAlone(db: Db, req: DispatchRequest, token: string, f: CaptureKey)
    requires FencesKeyed(db.fences) && f in db.fences.attempts && Taken(db, db.fences.attempts[f])
    ensures f in PrepareStep(db, req, token).0.fences.attempts
    ensures LeftAlone(db.fences.attempts[f], PrepareStep(db, req, token).0.fences.attempts[f])
  {
    hide PrepareStep, Taken, SameHolder;
    PrepareSparesTaken(db, req, token, f);
    PrepareKeepsFences(db, req, token);
    assert RowKept(db.fences.attempts[f], PrepareStep(db, req, token).0.fences.attempts[f]);
  }

  lemma LeftAloneItself(row: Attempt)
    ensures LeftAlone(row, row)
  {
  }

  /** No step of either package or the environment takes a fence from its live holder. */
  lemma StepLeavesAlone(cfg: Config, w: World, op: Op, f: CaptureKey)
    requires FencesKeyed(w.db.fences) && f in w.db.fences.attempts && Taken(w.db, w.db.fences.attempts[f])
    requires w.db.fences.attempts[f].state == NoDispatch || !GivesUp(op, f, w.db.fences.attempts[f])
    ensures f in Step(cfg, w, op).db.fences.attempts
    ensures LeftAlone(w.db.fences.attempts[f], Step(cfg, w, op).db.fences.attempts[f])
  {
    hide PrepareStep, ReserveStep, BeginStep, DeferStep, ObserveStep, ReconcileStep, QueueNext, EvidenceNext,
        RecoveredQueue, NextRecoveries, NextDispatches, NextCharges, NextApplied, Taken, LeftAlone, GivesUp,
        FencesKeyed;
    LeftAloneItself(w.db.fences.attempts[f]);
    match op
    case OnFence(o) =>
      if o.Prepare? { PrepareLeavesAlone(w.db, o.req, o.token, f); } else { OthersLeaveAlone(cfg, w.db, o, f); }
    case OnRecovery(o) =>
      if o.Rebind? && o.id in w.recoveries {
        ReconcileLeavesAlone(w.db, w.recoveries[o.id].task, f);
      }
    case _ =>
  }

  lemma {:induction false} RunClock(cfg: Config, w: World, ops: seq<Op>)
    ensures w.db.now <= Run(cfg, w, ops).db.now
    decreases |ops|
  {
    hide Step;
    if ops != [] {
      StepClock(cfg, w, ops[0]);
      RunClock(cfg, Step(cfg, w, ops[0]), ops[1..]);
    }
  }

  lemma LeftAloneTransitive(a: Attempt, b: Attempt, c: Attempt)
    requires LeftAlone(a, b) && LeftAlone(b, c)
    ensures LeftAlone(a, c)
  {
  }

  /** While its lease runs, whatever else runs, a fence keeps its holder and its lease, unless
      the holder gives it up. */
  lemma {:induction false} LiveLeaseStays(cfg: Config, w: World, ops: seq<Op>, f: CaptureKey)
    requires FencesKeyed(w.db.fences) && f in w.db.fences.attempts
    requires Later(w.db.fences.attempts[f].leaseUntil, Run(cfg, w, ops).db.now)
    requires forall op :: op in ops ==> !GivesUp(op, f, w.db.fences.attempts[f])
    ensures var x := Run(cfg, w, ops).db.fences; f in x.attempts && LeftAlone(w.db.fences.attempts[f], x.attempts[f])
    decreases |ops|
  {
    hide Step, FencesKeyed;
    if ops != [] {
      var v := Step(cfg, w, ops[0]);
      StepClock(cfg, w, ops[0]);
      RunClock(cfg, v, ops[1..]);
      StepKeepsFences(cfg, w, ops[0]);
      StepLeavesAlone(cfg, w, ops[0], f);
      forall op | op in ops[1..] ensures !GivesUp(op, f, v.db.fences.attempts[f]) {
        assert op in ops;
      }
      LiveLeaseStays(cfg, v, ops[1..], f);
      LeftAloneTransitive(w.db.fences.attempts[f], v.db.fences.attempts[f], Run(cfg, w, ops).db.fences.attempts[f]);
    }
  }

  /** Until its retry time, whatever runs, a fence that was told to wait is granted to nobody. */
  lemma {:induction false} NotGrantedBeforeDue(cfg: Config, w: World, ops: seq<Op>, f: CaptureKey)
    requires FencesKeyed(w.db.fences) && f in w.db.fences.attempts && w.db.fences.attempts[f].state == NoDispatch
    requires Later(w.db.fences.attempts[f].retryAfter, Run(cfg, w, ops).db.now)
    ensures var x := Run(cfg, w, ops).db.fences; f in x.attempts && SameHolder(w.db.fences.attempts[f], x.attempts[f])
    decreases |ops|
  {
    hide Step, FencesKeyed;
    if ops != [] {
      var v := Step(cfg, w, ops[0]);
      StepClock(cfg, w, ops[0]);
      RunClock(cfg, v, ops[1..]);
      StepKeepsFences(cfg, w, ops[0]);
      StepLeavesAlone(cfg, w, ops[0], f);
      if v.db.fences.attempts[f].state == NoDispatch {
        NotGrantedBeforeDue(cfg, v, ops[1..], f);
      } else {
        RunKeepsFences(cfg, v, ops[1..]);
        assert RowKept(v.db.fences.attempts[f], Run(cfg, v, ops[1..]).db.fences.attempts[f]);
      }
    }
  }
}
