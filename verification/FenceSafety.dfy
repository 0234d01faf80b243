/**
Safety of the dispatch fence over whole runs: at most one dispatch per request
whatever the builds, leases, crashes and retention do; a dispatched fence keeps its
owner, generation and capture; the first bound response is bound for ever.
*/
module FenceSafety {
  import opened Options
  import opened Ledger
  import opened DispatchSpec
  import opened WorkSpec
  import opened LedgerRuns

  /** A row stands for the request its key names. */
  ghost predicate RowKeyed(f: CaptureKey, row: Attempt) {
    row.semantic == f.identity && row.active.identity == f.identity
  }

  /** One row per request, found through the index. */
  ghost predicate RowsIndexed(x: Fences) {
    && (forall f :: f in x.attempts ==> RowKeyed(f, x.attempts[f]) && f.identity in x.index && x.index[f.identity] == f)
    && (forall id :: id in x.index ==> x.index[id] in x.attempts && x.index[id].identity == id)
  }

  /** Every alias leads to the row of its own request. */
  ghost predicate AliasesKeyed(x: Fences) {
    forall k :: k in x.aliases ==> k.identity in x.index && x.aliases[k] == x.index[k.identity]
  }

  ghost predicate FencesKeyed(x: Fences) {
    RowsIndexed(x) && AliasesKeyed(x)
  }

  /** What no step may ever undo in one fence row. */
  ghost predicate RowKept(a: Attempt, b: Attempt) {
    && b.semantic == a.semantic && b.legacy == a.legacy
    && (a.taskKey.Some? ==> b.taskKey == a.taskKey)
    && a.generation <= b.generation
    && (!Undispatched(a.state) ==>
          !Undispatched(b.state) && b.owner == a.owner && b.generation == a.generation && b.active == a.active)
    && (a.bound.Some? ==> b.bound == a.bound)
  }

  ghost predicate RowsKept(x: Fences, y: Fences) {
    forall f :: f in x.attempts ==> f in y.attempts && RowKept(x.attempts[f], y.attempts[f])
  }

  ghost predicate AliasesKept(x: Fences, y: Fences) {
    forall k :: k in x.aliases ==> k in y.aliases && y.aliases[k] == x.aliases[k]
  }

  ghost predicate FencesKept(x: Fences, y: Fences) {
    RowsKept(x, y) && AliasesKept(x, y)
  }

  ghost predicate Preserved(x: Fences, y: Fences) {
    FencesKeyed(y) && FencesKept(x, y)
  }

  lemma KeptByNothing(x: Fences)
    requires FencesKeyed(x)
    ensures Preserved(x, x)
  {
  }

  lemma KeptTransitively(x: Fences, y: Fences, z: Fences)
    requires FencesKept(x, y) && FencesKept(y, z)
    ensures FencesKept(x, z)
  {
    forall f | f in x.attempts ensures f in z.attempts && RowKept(x.attempts[f], z.attempts[f]) {
      assert f in y.attempts;
    }
  }

  /** One existing row is rewritten in a way that keeps it. */
  lemma RewriteRow(x: Fences, f: CaptureKey, row: Attempt)
    requires FencesKeyed(x) && f in x.attempts
    requires row.active == x.attempts[f].active && RowKept(x.attempts[f], row)
    ensures Preserved(x, x.(attempts := x.attempts[f := row]))
  {
  }

  // ------------------------------------------------------------------- Prepare

  /** A fence is always resolved, and only one that stands for the same request. */
  lemma ResolveKeyed(db: Db, k: CaptureKey)
    requires FencesKeyed(db.fences)
    ensures Resolve(db, k).Some?
    ensures Resolve(db, k).value.key.identity == k.identity
    ensures Resolve(db, k).value.key in db.fences.attempts <==> k.identity in db.fences.index
    ensures k.identity in db.fences.index ==> Resolve(db, k).value.key == db.fences.index[k.identity]
  {
  }

  lemma DecideKeepsRow(row: Attempt, isNew: bool, legacy: bool, retained: Option<Response>, req: DispatchRequest,
                       token: string, fence: CaptureKey, now: Time)
    requires RowKeyed(fence, row) && req.capture.identity == fence.identity
    ensures var row' := Decide(row, isNew, legacy, retained, req, token, fence, now).0;
      RowKeyed(fence, row') && (!isNew ==> RowKept(row, row')) && row'.semantic == row.semantic
  {
  }

  lemma LinkedKeyed(aliases: map<CaptureKey, CaptureKey>, k: CaptureKey, active: CaptureKey, fence: CaptureKey)
    requires Linked(aliases, k, active, fence).Some?
    ensures var m := Linked(aliases, k, active, fence).value;
      && (forall j :: j in aliases ==> j in m && m[j] == aliases[j])
      && (forall j :: j in m && j !in aliases ==> (j == k || j == active) && m[j] == fence)
  {
  }

  /** A row is inserted or rewritten. */
  lemma InsertKeepsRows(x: Fences, y: Fences, f: CaptureKey, row: Attempt)
    requires RowsIndexed(x) && RowKeyed(f, row)
    requires if f in x.attempts then RowKept(x.attempts[f], row) else f.identity !in x.index
    requires y.attempts == x.attempts[f := row] && y.index == x.index[f.identity := f]
    ensures RowsIndexed(y)
    ensures RowsKept(x, y)
  {
    hide RowKept, RowKeyed;
    forall g | g in x.attempts ensures g in y.attempts && RowKept(x.attempts[g], y.attempts[g]) {
      RowKeptByItself(x.attempts[g]);
    }
    forall g | g in y.attempts ensures RowKeyed(g, y.attempts[g]) && y.index[g.identity] == g {
      assert g == f || g in x.attempts;
    }
  }

  lemma RowKeptByItself(row: Attempt)
    ensures RowKept(row, row)
  {
  }

  /** Captures of the same request are linked to its row. */
  lemma InsertKeepsAliases(x: Fences, y: Fences, f: CaptureKey, k: CaptureKey, active: CaptureKey)
    requires AliasesKeyed(x)
    requires k.identity == f.identity && active.identity == f.identity
    requires y.index == x.index[f.identity := f]
    requires f.identity in x.index ==> x.index[f.identity] == f
    requires Linked(x.aliases, k, active, f) == Some(y.aliases)
    ensures AliasesKeyed(y)
    ensures AliasesKept(x, y)
  {
    hide Linked;
    LinkedKeyed(x.aliases, k, active, f);
  }

  /** The row that Prepare decides on. */
  ghost function PrepareRow(db: Db, req: DispatchRequest, fence: CaptureKey, legacy: bool): Attempt {
    if fence in db.fences.attempts then db.fences.attempts[fence] else NewAttempt(req, fence, legacy)
  }

  lemma PrepareKeepsFences(db: Db, req: DispatchRequest, token: string)
    requires FencesKeyed(db.fences)
    ensures Preserved(db.fences, PrepareStep(db, req, token).0.fences)
  {
    hide AdmitRequest, Resolve, CheckCaseFence, Foreign, Linked, Retained, Decide, RowKept, AliasesKeyed, RowsKept,
        AliasesKept;
    var x := db.fences;
    KeptByNothing(x);
    if Commits(PrepareStep(db, req, token).1) {
      ResolveKeyed(db, req.capture);
      var Fence(fence, legacy) := Resolve(db, req.capture).value;
      var row := PrepareRow(db, req, fence, legacy);
      var isNew, held, retained := fence !in x.attempts, legacy || row.legacy, Retained(db, row.active);
      DecideKeepsRow(row, isNew, held, retained, req, token, fence, db.now);
      var y := PrepareStep(db, req, token).0.fences;
      InsertKeepsRows(x, y, fence, Decide(row, isNew, held, retained, req, token, fence, db.now).0);
      InsertKeepsAliases(x, y, fence, req.capture, row.active);
    }
  }

  // ------------------------------------------------------------------ every step

  lemma ReserveKeepsFences(cal: Calendar, db: Db, lease: DispatchLease, scope: Scope, daily: int, monthly: int)
    requires FencesKeyed(db.fences)
    ensures Preserved(db.fences, ReserveStep(cal, db, lease, scope, daily, monthly).0.fences)
  {
    hide ReserveRefusal, ChargeBudget, FencesKeyed, FencesKept, Preserved;
    KeptByNothing(db.fences);
    var f, outcome := lease.FenceKey(), ReserveStep(cal, db, lease, scope, daily, monthly).1;
    if outcome.Reserved? {
      RewriteRow(db.fences, f, AdmitRow(db.fences.attempts[f], scope, Today(db)));
    } else if outcome.Exhausted? {
      RewriteRow(db.fences, f, NoDispatchRow(db.fences.attempts[f], outcome.reason, outcome.retryAfter));
    }
  }

  lemma BeginKeepsFences(db: Db, lease: DispatchLease)
    requires FencesKeyed(db.fences)
    ensures Preserved(db.fences, BeginStep(db, lease).0.fences)
  {
    KeptByNothing(db.fences);
    if BeginStep(db, lease).1.None? {
      var f := lease.FenceKey();
      RewriteRow(db.fences, f, IntentRow(db.fences.attempts[f], db.now));
    }
  }

  lemma DeferKeepsFences(db: Db, lease: DispatchLease, reason: string, retryAt: Time)
    requires FencesKeyed(db.fences)
    ensures Preserved(db.fences, DeferStep(db, lease, reason, retryAt).0.fences)
  {
    KeptByNothing(db.fences);
    if DeferStep(db, lease, reason, retryAt).1.None? {
      var f := lease.FenceKey();
      RewriteRow(db.fences, f, NoDispatchRow(db.fences.attempts[f], Given(reason), retryAt));
    }
  }

  lemma ObserveKeepsFences(db: Db, lease: DispatchLease, receipt: Receipt)
    requires FencesKeyed(db.fences)
    ensures Preserved(db.fences, ObserveStep(db, lease, receipt).0.fences)
  {
    KeptByNothing(db.fences);
    if MayObserve(db, lease, receipt) {
      var f, r := lease.FenceKey(), db.evidence.results[lease.capture];
      RewriteRow(db.fences, f, Bind(db.fences.attempts[f], r, db.now, if r.status == 0 then Unknown else Result));
    }
  }

  lemma ReconcileKeepsRow(db: Db, t: TaskKey, f: CaptureKey)
    requires f in db.fences.attempts
    ensures var x, y := db.fences.attempts[f], ReconcileStep(db, t).fences.attempts[f];
      RowKept(x, y) && (RowKeyed(f, x) ==> RowKeyed(f, y))
  {
    hide Kept;
  }

  lemma ReconcileKeepsFences(db: Db, t: TaskKey)
    requires FencesKeyed(db.fences)
    ensures Preserved(db.fences, ReconcileStep(db, t).fences)
  {
    hide RowKept, RowKeyed, MayReconcile, Bind;
    forall f | f in db.fences.attempts
      ensures var x, y := db.fences.attempts[f], ReconcileStep(db, t).fences.attempts[f];
        RowKept(x, y) && (RowKeyed(f, x) ==> RowKeyed(f, y))
    {
      ReconcileKeepsRow(db, t, f);
    }
  }

  lemma FenceNextKeepsFences(cfg: Config, db: Db, op: FenceOp)
    requires FencesKeyed(db.fences)
    ensures Preserved(db.fences, FenceNext(cfg, db, op).fences)
  {
    hide PrepareStep, ReserveStep, BeginStep, DeferStep, ObserveStep, ReconcileStep, FencesKeyed, FencesKept, Preserved;
    match op
    case Prepare(req, token) => PrepareKeepsFences(db, req, token);
    case Reserve(lease, scope, daily, monthly) => ReserveKeepsFences(cfg.calendar, db, lease, scope, daily, monthly);
    case Begin(lease) => BeginKeepsFences(db, lease);
    case DeferDispatch(lease, reason, retryAt) => DeferKeepsFences(db, lease, reason, retryAt);
    case Observe(lease, receipt) => ObserveKeepsFences(db, lease, receipt);
    case Reconcile(t) => ReconcileKeepsFences(db, t);
  }

  /** No step forgets a fence, reopens a dispatched one or replaces a bound response. */
  lemma StepKeepsFences(cfg: Config, w: World, op: Op)
    requires FencesKeyed(w.db.fences)
    ensures Preserved(w.db.fences, Step(cfg, w, op).db.fences)
  {
    hide FenceNext, QueueNext, EvidenceNext, ReconcileStep, RecoveredQueue, FencesKeyed, FencesKept, Preserved;
    KeptByNothing(w.db.fences);
    match op
    case OnFence(o) => FenceNextKeepsFences(cfg, w.db, o);
    case OnQueue(_) =>
    case OnRecovery(o) => if o.Rebind? && o.id in w.recoveries { ReconcileKeepsFences(w.db, w.recoveries[o.id].task); }
    case OnEvidence(_) =>
    case Tick(_) =>
  }

  /** A fence that no lease can dispatch any more: held as unproven or past its intent. */
  ghost predicate Closed(row: Attempt) {
    row.legacy || !Undispatched(row.state)
  }

  // ------------------------------------------------------------------ whole runs

  /** A dispatch is remembered by its fence, frozen as it was when it happened. */
  ghost predicate Frozen(x: Fences, d: Dispatch) {
    && d.fence in x.attempts && d.capture.identity == d.fence.identity
    && var row := x.attempts[d.fence];
    && !Undispatched(row.state) && row.owner == Some(d.owner) && row.generation == d.generation
        && row.active == d.capture
  }

  ghost predicate AllFrozen(w: World) {
    forall d :: d in w.dispatches ==> Frozen(w.db.fences, d)
  }

  ghost predicate DistinctFences(ds: seq<Dispatch>) {
    forall i, j :: 0 <= i < j < |ds| ==> ds[i].fence != ds[j].fence
  }

  ghost predicate DispatchSafe(w: World) {
    FencesKeyed(w.db.fences) && AllFrozen(w) && DistinctFences(w.dispatches)
  }

  lemma FrozenKept(x: Fences, y: Fences, d: Dispatch)
    requires RowsKept(x, y) && Frozen(x, d)
    ensures Frozen(y, d)
  {
  }

  /** A successful BeginDispatch finds its fence open and leaves it frozen. */
  lemma BeginFreezes(db: Db, lease: DispatchLease)
    requires FencesKeyed(db.fences) && BeginStep(db, lease).1.None?
    ensures lease.FenceKey() in db.fences.attempts && !Closed(db.fences.attempts[lease.FenceKey()])
    ensures lease.capture.identity == lease.FenceKey().identity
    ensures Frozen(BeginStep(db, lease).0.fences, DispatchOf(db, lease))
  {
    hide CheckCaseFence, PublicAdmission, AliasesKeyed;
  }

  /** What a step adds to the record of dispatches. */
  lemma StepDispatches(cfg: Config, w: World, op: Op)
    ensures Step(cfg, w, op).dispatches ==
      if op.OnFence? && op.fence.Begin? && BeginStep(w.db, op.fence.lease).1.None? then
        w.dispatches + [DispatchOf(w.db, op.fence.lease)]
      else w.dispatches
  {
    hide FenceNext, QueueNext, EvidenceNext, RebindNext, RecoveredQueue, NextRecoveries, NextCharges, NextApplied,
        BeginStep;
  }

  lemma StepDispatchSafe(cfg: Config, w: World, op: Op)
    requires DispatchSafe(w)
    ensures DispatchSafe(Step(cfg, w, op))
  {
    hide Step, BeginStep, RowsKept, FencesKeyed, Frozen;
    StepKeepsFences(cfg, w, op);
    StepDispatches(cfg, w, op);
    var w' := Step(cfg, w, op);
    forall d | d in w.dispatches ensures Frozen(w'.db.fences, d) {
      FrozenKept(w.db.fences, w'.db.fences, d);
    }
    if op.OnFence? && op.fence.Begin? && BeginStep(w.db, op.fence.lease).1.None? {
      NewDispatchSafe(cfg, w, op);
    }
  }

  lemma NewDispatchSafe(cfg: Config, w: World, op: Op)
    requires DispatchSafe(w)
    requires op.OnFence? && op.fence.Begin? && BeginStep(w.db, op.fence.lease).1.None?
    ensures Frozen(Step(cfg, w, op).db.fences, DispatchOf(w.db, op.fence.lease))
    ensures forall d :: d in w.dispatches ==> d.fence != op.fence.lease.FenceKey()
  {
    hide BeginStep, FencesKeyed;
    BeginFreezes(w.db, op.fence.lease);
  }

  lemma {:induction false} RunDispatchSafe(cfg: Config, w: World, ops: seq<Op>)
    requires DispatchSafe(w)
    ensures DispatchSafe(Run(cfg, w, ops))
    decreases |ops|
  {
    hide Step, DispatchSafe;
    if ops != [] {
      StepDispatchSafe(cfg, w, ops[0]);
      RunDispatchSafe(cfg, Step(cfg, w, ops[0]), ops[1..]);
    }
  }

  /** From empty tables, whatever is interleaved, two dispatches are never of the same
      request, not even when different builds captured it. */
  lemma AtMostOneDispatchPerRequest(cfg: Config, ops: seq<Op>)
    ensures var ds := Run(cfg, START, ops).dispatches;
      forall i, j :: 0 <= i < j < |ds| ==> ds[i].capture.identity != ds[j].capture.identity
  {
    hide Run;
    assert DispatchSafe(START);
    RunDispatchSafe(cfg, START, ops);
    var w := Run(cfg, START, ops);
    forall i, j | 0 <= i < j < |w.dispatches|
        ensures w.dispatches[i].capture.identity != w.dispatches[j].capture.identity {
      assert Frozen(w.db.fences, w.dispatches[i]) && Frozen(w.db.fences, w.dispatches[j]);
    }
  }

  lemma {:induction false} RunKeepsFences(cfg: Config, w: World, ops: seq<Op>)
    requires FencesKeyed(w.db.fences)
    ensures Preserved(w.db.fences, Run(cfg, w, ops).db.fences)
    decreases |ops|
  {
    hide Step, FencesKeyed, FencesKept;
    KeptByNothing(w.db.fences);
    if ops != [] {
      StepKeepsFences(cfg, w, ops[0]);
      RunKeepsFences(cfg, Step(cfg, w, ops[0]), ops[1..]);
      KeptTransitively(w.db.fences, Step(cfg, w, ops[0]).db.fences, Run(cfg, w, ops).db.fences);
    }
  }

  lemma StepFromClosed(cfg: Config, w: World, op: Op, f: CaptureKey)
    requires FencesKeyed(w.db.fences) && f in w.db.fences.attempts && Closed(w.db.fences.attempts[f])
    ensures forall d :: d in Step(cfg, w, op).dispatches && d.capture.identity == f.identity ==> d in w.dispatches
  {
    hide Step, BeginStep, AliasesKeyed;
    StepDispatches(cfg, w, op);
    if op.OnFence? && op.fence.Begin? && BeginStep(w.db, op.fence.lease).1.None? {
      BeginFreezes(w.db, op.fence.lease);
    }
  }

  /** Once a fence is held as unproven, past its intent, unknown or answered, no later
      step of any run dispatches its request again. */
  lemma {:induction false} NoDispatchAfterClosing(cfg: Config, w: World, ops: seq<Op>, f: CaptureKey)
    requires FencesKeyed(w.db.fences) && f in w.db.fences.attempts && Closed(w.db.fences.attempts[f])
    ensures forall d :: d in Run(cfg, w, ops).dispatches && d.capture.identity == f.identity ==> d in w.dispatches
    decreases |ops|
  {
    hide Step, AliasesKeyed;
    if ops != [] {
      var w1 := Step(cfg, w, ops[0]);
      StepKeepsFences(cfg, w, ops[0]);
      StepFromClosed(cfg, w, ops[0], f);
      assert RowKept(w.db.fences.attempts[f], w1.db.fences.attempts[f]);
      NoDispatchAfterClosing(cfg, w1, ops[1..], f);
    }
  }

  /** A dispatch keeps its owner, generation and capture in every later state. */
  lemma DispatchFrozenForever(cfg: Config, w: World, ops: seq<Op>, d: Dispatch)
    requires DispatchSafe(w) && d in w.dispatches
    ensures Frozen(Run(cfg, w, ops).db.fences, d)
  {
    hide Run, FencesKeyed, RowsKept, AliasesKept;
    RunKeepsFences(cfg, w, ops);
    FrozenKept(w.db.fences, Run(cfg, w, ops).db.fences, d);
  }

  /** Whatever expires, is captured again or is answered differently later, a replay of a
      request can only serve the body that was bound first. */
  lemma ReplayServesFirstBound(cfg: Config, w: World, ops: seq<Op>, f: CaptureKey, req: DispatchRequest)
    requires FencesKeyed(w.db.fences) && f in w.db.fences.attempts && w.db.fences.attempts[f].bound.Some?
    requires req.capture.identity == f.identity
    ensures var r := Replay(Run(cfg, w, ops).db, req);
      r.ReplayBody? ==>
        Sha256(r.response.body) == w.db.fences.attempts[f].bound.value.digest &&
        r.response.observedAt == w.db.fences.attempts[f].bound.value.observedAt
  {
    hide Run, AdmitRequest, CheckCaseFence, PublicAdmission;
    RunKeepsFences(cfg, w, ops);
    var y := Run(cfg, w, ops).db.fences;
    assert RowKept(w.db.fences.attempts[f], y.attempts[f]);
    if req.capture in y.aliases {
      assert y.aliases[req.capture] == f;
    }
  }
}
