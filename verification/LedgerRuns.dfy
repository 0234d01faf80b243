/**
Runs of the two packages together: any interleaving of controller transactions,
queue transactions, the separate steps of lease recovery, and the environment
(clock, capture retention, response persistence, privacy changes).
*/
module LedgerRuns {
  import opened Options
  import opened Ledger
  import opened DispatchSpec
  import opened WorkSpec

  /** One successful BeginDispatch. */
  datatype Dispatch = Dispatch(fence: CaptureKey, capture: CaptureKey, owner: string, generation: int,
      reserved: Option<Reservation>, at: Time)

  /** One budget unit taken by Reserve. */
  datatype Charge = Charge(scope: Scope, fence: CaptureKey, day: int)

  datatype Stage = Selected | Reconciled | Judged(verdict: Verdict) | Aborted

  /** One item that a recoverExpired call is working on, between its statements; selectedAt
      is when its query saw the expired lease. */
  datatype Recovery = Recovery(task: TaskKey, generation: int, born: nat, selectedAt: Time, stage: Stage)

  /** The tables, the recoveries in flight, and what has happened so far. */
  datatype World = World(
    db: Db,
    recoveries: map<nat, Recovery>,
    dispatches: seq<Dispatch>,
    charges: set<Charge>,
    applied: seq<TaskKey>)

  const START: World := World(EMPTY, map[], [], {}, [])

  /** Transactions of the dispatch controller. */
  datatype FenceOp =
    | Prepare(req: DispatchRequest, token: string)
    | Reserve(lease: DispatchLease, scope: Scope, daily: int, monthly: int)
    | Begin(lease: DispatchLease)
    | DeferDispatch(lease: DispatchLease, reason: string, retryAt: Time)
    | Observe(lease: DispatchLease, receipt: Receipt)
    | Reconcile(task: TaskKey)

  /** Transactions of the work queue. */
  datatype QueueOp =
    | Enqueue(draft: Draft, nameAllowed: bool)
    | Claim(owner: string, aged: set<TaskKey>, pick: Option<TaskKey>)
    | Heartbeat(work: WorkLease)
    | Progress(work: WorkLease)
    | Finish(work: WorkLease, state: WorkState, reason: string, retryAfter: Time)
    | Apply(work: WorkLease, reason: string, adapter: Adapter)
    | Cleanup(aged: set<TaskKey>, swept: set<TaskKey>)

  /** The separate statements of recoverExpired, for the item numbered `id`. */
  datatype RecoveryOp = Select(id: nat, task: TaskKey) | Rebind(id: nat) | Judge(id: nat) | Update(id: nat)

  /** Capture retention, response persistence and privacy changes. */
  datatype EvidenceOp =
    | RetainCapture(key: CaptureKey, expiresAt: Time)
    | DropCapture(key: CaptureKey)
    | PersistResponse(key: CaptureKey, response: Response)
    | SetPublic(hash: InfoHash, isPublic: bool)

  datatype Op =
    | OnFence(fence: FenceOp)
    | OnQueue(queue: QueueOp)
    | OnRecovery(recovery: RecoveryOp)
    | OnEvidence(evidence: EvidenceOp)
    | Tick(elapsed: nat)

  ghost function FenceNext(cfg: Config, db: Db, op: FenceOp): Db {
    match op
    case Prepare(req, token) => PrepareStep(db, req, token).0
    case Reserve(lease, scope, daily, monthly) => ReserveStep(cfg.calendar, db, lease, scope, daily, monthly).0
    case Begin(lease) => BeginStep(db, lease).0
    case DeferDispatch(lease, reason, retryAt) => DeferStep(db, lease, reason, retryAt).0
    case Observe(lease, receipt) => ObserveStep(db, lease, receipt).0
    case Reconcile(t) => ReconcileStep(db, t)
  }

  function QueueNext(cfg: Config, db: Db, op: QueueOp): Queue {
    match op
    case Enqueue(d, nameAllowed) => EnqueueStep(cfg, db, d, nameAllowed).0
    case Claim(owner, aged, pick) => ClaimStep(cfg, db, owner, aged, pick).0
    case Heartbeat(l) => HeartbeatStep(cfg, db, l).0
    case Progress(l) => ProgressStep(db, l).0
    case Finish(l, s, reason, retryAfter) => FinishStep(db, l, s, reason, retryAfter).0
    case Apply(l, reason, adapter) => ApplyStep(db, l, reason, adapter).0
    case Cleanup(aged, swept) => CleanupStep(db, aged, swept).0
  }

  function EvidenceNext(db: Db, op: EvidenceOp): Evidence {
    var e := db.evidence;
    match op
    case RetainCapture(k, expiresAt) =>
      if k in e.captures || expiresAt <= db.now then e else e.(captures := e.captures[k := Capture(db.now, expiresAt)])
    case DropCapture(k) => e.(captures := e.captures - {k}, results := e.results - {k})
    case PersistResponse(k, r) =>
      // PersistHTTPResult: the first response of an admitted capture wins.
      if PublicAdmission(db, k) && k !in e.results then e.(results := e.results[k := r]) else e
    case SetPublic(h, isPublic) => e.(publicHashes := if isPublic then e.publicHashes + {h} else e.publicHashes - {h})
  }

  /** Every attempt of the task is positively undispatched or has a retained response. */
  ghost predicate AllSafe(db: Db, t: TaskKey) {
    forall f :: f in TaskAttempts(db, t) ==> SafeToRetry(db.fences.attempts[f]) || Replayable(db, db.fences.attempts[f])
  }

  ghost predicate AnyReplayable(db: Db, t: TaskKey) {
    exists f :: f in TaskAttempts(db, t) && Replayable(db, db.fences.attempts[f])
  }

  /** TaskRecovery's second statement and the loop over its rows. */
  ghost function JudgeStage(cfg: Config, db: Db, t: TaskKey): Stage {
    if !cfg.dispatchEnabled then Judged(NoController)
    else if |TaskAttempts(db, t)| > MAX_TASK_ATTEMPTS then Aborted
    else if AllSafe(db, t) then Judged(Safe(AnyReplayable(db, t)))
    else Judged(Unsafe)
  }

  function RebindNext(cfg: Config, w: World, op: RecoveryOp): Db {
    if op.Rebind? && op.id in w.recoveries && cfg.dispatchEnabled then ReconcileStep(w.db, w.recoveries[op.id].task)
        else w.db
  }

  function RecoveredQueue(w: World, op: RecoveryOp): Queue {
    if op.Update? && op.id in w.recoveries && w.recoveries[op.id].stage.Judged? then
      var r := w.recoveries[op.id];
      RecoverStep(w.db, r.task, r.generation, r.stage.verdict).0
    else w.db.queue
  }

  ghost function NextRecoveries(cfg: Config, w: World, op: RecoveryOp): map<nat, Recovery> {
    var rs := w.recoveries;
    var id := op.id;
    match op
    case Select(_, t) =>
      if id !in rs && t in w.db.queue.tasks && LeaseExpired(w.db, w.db.queue.tasks[t]) then
        rs[id := Recovery(t, w.db.queue.tasks[t].generation, w.db.queue.tasks[t].born, w.db.now, Selected)]
      else rs
    case Rebind(_) => if id in rs && rs[id].stage == Selected then rs[id := rs[id].(stage := Reconciled)] else rs
    case Judge(_) =>
      if id in rs && rs[id].stage == Reconciled then rs[id := rs[id].(stage := JudgeStage(cfg, w.db, rs[id].task))]
          else rs
    case Update(_) => rs - {id}
  }

  function DispatchOf(db: Db, lease: DispatchLease): Dispatch
    requires OwnsRow(db, lease)
  {
    Dispatch(lease.FenceKey(), lease.capture, lease.owner, lease.generation,
        db.fences.attempts[lease.FenceKey()].reserved, db.now)
  }

  /** The dispatches so far: one more for every BeginDispatch that answers without error. */
  function NextDispatches(w: World, op: FenceOp): seq<Dispatch> {
    if op.Begin? && BeginStep(w.db, op.lease).1.None? then w.dispatches + [DispatchOf(w.db, op.lease)] else w.dispatches
  }

  function NextCharges(cfg: Config, w: World, op: FenceOp): set<Charge> {
    if op.Reserve? && ReserveStep(cfg.calendar, w.db, op.lease, op.scope, op.daily, op.monthly).1 == Reserved(true) then
      w.charges + {Charge(op.scope, op.lease.FenceKey(), Today(w.db))}
    else w.charges
  }

  function NextApplied(w: World, op: QueueOp): seq<TaskKey> {
    if op.Apply? && ApplyStep(w.db, op.work, op.reason, op.adapter).1 && RecordsApplication(op.adapter)
        then w.applied + [op.work.task]
    else w.applied
  }

  ghost function Step(cfg: Config, w: World, op: Op): World {
    match op
    case OnFence(o) => w.(db := FenceNext(cfg, w.db, o), dispatches := NextDispatches(w, o),
        charges := NextCharges(cfg, w, o))
    case OnQueue(o) => w.(db := w.db.(queue := QueueNext(cfg, w.db, o)), applied := NextApplied(w, o))
    case OnRecovery(o) =>
      w.(db := RebindNext(cfg, w, o).(queue := RecoveredQueue(w, o)), recoveries := NextRecoveries(cfg, w, o))
    case OnEvidence(o) => w.(db := w.db.(evidence := EvidenceNext(w.db, o)))
    case Tick(elapsed) => w.(db := w.db.(now := w.db.now + elapsed))
  }

  ghost function Run(cfg: Config, w: World, ops: seq<Op>): World
    decreases |ops|
  {
    if ops == [] then w else Run(cfg, Step(cfg, w, ops[0]), ops[1..])
  }

  /** A run can be cut anywhere. */
  lemma {:induction false} RunSplit(cfg: Config, w: World, first: seq<Op>, rest: seq<Op>)
    ensures Run(cfg, w, first + rest) == Run(cfg, Run(cfg, w, first), rest)
    decreases |first|
  {
    if first == [] {
      assert first + rest == rest;
    } else {
      assert (first + rest)[0] == first[0] && (first + rest)[1..] == first[1..] + rest;
      RunSplit(cfg, Step(cfg, w, first[0]), first[1..], rest);
    }
  }
}
