/**
What each transaction of the dispatch controller does to the tables: one function
per transaction, from the tables before to the tables after and the answer.
*/
module DispatchSpec {
  import opened Options
  import opened Ledger

  datatype DispatchRequest = DispatchRequest(
    capture: CaptureKey,
    semantic: Option<Identity>,
    task: Task,
    source: CandidateSource,
    infoHash: InfoHash,
    freshCapture: bool,
    caseFence: Option<CaseFence>,
    duration: int)

  /** A claim on a fence.  Callers may present any value of this type. */
  datatype DispatchLease = DispatchLease(
    capture: CaptureKey,
    fence: Option<CaptureKey>,
    owner: string,
    generation: int,
    caseFence: Option<CaseFence>)
  {
    /** dispatchFenceKey */
    function FenceKey(): CaptureKey {
      if fence.Some? then fence.value else capture
    }
  }

  datatype Receipt = Receipt(capture: CaptureKey, digest: Digest, status: nat, errorClass: string)

  datatype PrepareOutcome =
    | Refused(refusal: Refusal)
    | Busy
    | NotDue(retryAfter: Time)
    | Replayed
    | Uncertain
    | Granted(lease: DispatchLease)

  function SetAttempt(db: Db, f: CaptureKey, row: Attempt): Db {
    db.(fences := db.fences.(attempts := db.fences.attempts[f := row]))
  }

  // ------------------------------------------------------------------- Prepare

  predicate ValidRequest(req: DispatchRequest) {
    req.task != JunkPurgeTask && TaskSourceValid(req.task, req.source)
  }

  predicate ValidCase(c: Option<CaseFence>) {
    c.Some? ==> 0 < |c.value.owner| <= 64 && c.value.generation > 0 && c.value.recheck != Missing
  }

  function LeaseDuration(req: DispatchRequest): int {
    if req.duration == 0 then DEFAULT_DISPATCH_LEASE else req.duration
  }

  /** validateDispatchRequest, the lease bound, live admission, then the identity
      recomputed from the admitted capture. */
  function AdmitRequest(db: Db, req: DispatchRequest): Option<Refusal> {
    var id := req.capture.identity;
    if !ValidRequest(req) then Some(CaptureUnavailable)
    else if !ValidCase(req.caseFence) || !(0 < LeaseDuration(req) <= MAX_DISPATCH_LEASE) then Some(LeaseInvalid)
    else if !PublicAdmission(db, req.capture) || id.task != req.task || id.source != req.source
        || id.infoHash != req.infoHash then
      Some(PrivacyBlocked)
    else if !OriginValid(id.task, id.origin) then Some(CaptureUnavailable)
    else if req.semantic.Some? && req.semantic.value != id then Some(CaptureUnavailable)
    else None
  }

  /** Another retained capture of the same request, made by another build. */
  predicate Sibling(db: Db, k: CaptureKey, c: CaptureKey) {
    c in db.evidence.captures && c != k && c.identity == k.identity
  }

  /** ORDER BY captured_at, capture_key; equal identities differ only in build. */
  predicate NoOlder(db: Db, k: CaptureKey, c: CaptureKey)
    requires c in db.evidence.captures
  {
    forall o :: o in db.evidence.captures && Sibling(db, k, o) ==>
      || db.evidence.captures[c].capturedAt < db.evidence.captures[o].capturedAt
      || (db.evidence.captures[c].capturedAt == db.evidence.captures[o].capturedAt && c.build <= o.build)
  }

  ghost predicate HasSibling(db: Db, k: CaptureKey) {
    exists c :: Sibling(db, k, c) && NoOlder(db, k, c)
  }

  ghost function OldestSibling(db: Db, k: CaptureKey): (c: CaptureKey)
    requires HasSibling(db, k)
    ensures Sibling(db, k, c) && NoOlder(db, k, c)
  {
    var c :| Sibling(db, k, c) && NoOlder(db, k, c);
    c
  }

  datatype Resolution = Fence(key: CaptureKey, legacy: bool)

  ghost predicate HasActive(db: Db, c: CaptureKey) {
    exists d :: d in db.fences.attempts && db.fences.attempts[d].active == c
  }

  ghost function ActiveFence(db: Db, c: CaptureKey): (d: CaptureKey)
    requires HasActive(db, c)
    ensures d in db.fences.attempts && db.fences.attempts[d].active == c
  {
    var d :| d in db.fences.attempts && db.fences.attempts[d].active == c;
    d
  }

  /** resolveSemanticFence: existing semantic authority wins; an older retained
      equal capture without dispatch proof holds the new build. */
  ghost function Resolve(db: Db, k: CaptureKey): Option<Resolution> {
    if k.identity in db.fences.index then Some(Fence(db.fences.index[k.identity], false))
    else if k in db.fences.attempts then None
    else if HasSibling(db, k) then
      var c := OldestSibling(db, k);
      if HasActive(db, c) then Some(Fence(ActiveFence(db, c), false)) else Some(Fence(c, true))
    else Some(Fence(k, false))
  }

  function CaseTask(c: Option<CaseFence>): Option<TaskKey> {
    if c.Some? then Some(c.value.task) else None
  }

  function NewAttempt(req: DispatchRequest, fence: CaptureKey, legacy: bool): Attempt {
    Attempt(req.capture.identity, fence, legacy, CaseTask(req.caseFence),
            if legacy || !req.freshCapture then Unknown else Prepared,
            None, 0, None, None, None, None, None, Audit(NoReason, None, None))
  }

  /** The fence belongs to another request shape or to another work task. */
  predicate Foreign(row: Attempt, req: DispatchRequest) {
    || row.semantic.task != req.task
    || row.semantic.source != req.source
    || (row.taskKey.Some? && row.taskKey != CaseTask(req.caseFence))
  }

  function LinkAlias(aliases: map<CaptureKey, CaptureKey>, k: CaptureKey, fence: CaptureKey)
    : Option<map<CaptureKey, CaptureKey>>
  {
    if k !in aliases then Some(aliases[k := fence])
    else if aliases[k] == fence then Some(aliases)
    else None
  }

  function Linked(aliases: map<CaptureKey, CaptureKey>, k: CaptureKey, active: CaptureKey, fence: CaptureKey)
    : Option<map<CaptureKey, CaptureKey>>
  {
    var first := LinkAlias(aliases, k, fence);
    if first.None? then None else LinkAlias(first.value, active, fence)
  }

  /** The admitted, unexpired, bounded first response of a capture. */
  function Retained(db: Db, k: CaptureKey): Option<Response> {
    if k in db.evidence.results && |db.evidence.results[k].body| <= MAX_BODY && PublicAdmission(db, k)
        then Some(db.evidence.results[k]) else None
  }

  predicate Undispatched(s: AttemptState) {
    s == Prepared || s == NoDispatch || s == Admitted
  }

  /** Bind a response; a fence that already bound one keeps what it bound. */
  function Bind(row: Attempt, r: Response, at: Time, s: AttemptState): Attempt {
    row.(state := s,
         bound := row.bound.Or(Some(Bound(r.digest, r.observedAt))),
         answer := Some(Answer(r.status, r.errorClass)),
         audit := row.audit.(resultAt := row.audit.resultAt.Or(Some(at))))
  }

  function LeaseFor(req: DispatchRequest, token: string, fence: CaptureKey, generation: nat): DispatchLease {
    DispatchLease(req.capture, Some(fence), token, generation, req.caseFence)
  }

  /** The decision on a fence row that Prepare holds locked. */
  function Decide(row: Attempt, isNew: bool, legacy: bool, retained: Option<Response>, req: DispatchRequest,
                  token: string, fence: CaptureKey, now: Time): (Attempt, PrepareOutcome)
  {
    var owned := row.(taskKey := row.taskKey.Or(CaseTask(req.caseFence)));
    if !legacy && retained.Some? && retained.value.status > 0 then
      var r := retained.value;
      if r.digest != Sha256(r.body) || (row.bound.Some? && row.bound.value.digest != r.digest) then
        (row, Refused(CaptureUnavailable))
      else if row.bound.Some? && row.bound.value.observedAt != r.observedAt then
        (row, Refused(OutcomeUnknown))
      else
        (Bind(owned, r, now, Result), Replayed)
    else if !isNew && row.state == Intent && Later(row.leaseUntil, now) then
      (row, Busy)
    else if legacy || (!isNew && !Undispatched(row.state)) || (isNew && (!req.freshCapture || retained.Some?)) then
      (owned.(state := Unknown, audit := row.audit.(reason := UncertainOrExpiredResult)), Uncertain)
    else if !isNew && row.state == NoDispatch && Later(row.retryAfter, now) then
      (row, NotDue(row.retryAfter.value))
    else if !isNew && Later(row.leaseUntil, now) then
      (row, Busy)
    else
      (owned.(state := Prepared, active := req.capture, owner := Some(token), generation := row.generation + 1,
              leaseUntil := Some(now + LeaseDuration(req)), retryAfter := None,
                  audit := row.audit.(reason := NoReason)),
       Granted(LeaseFor(req, token, fence, row.generation + 1)))
  }

  predicate Commits(o: PrepareOutcome) {
    o.Replayed? || o.Uncertain? || o.Granted?
  }

  ghost function PrepareStep(db: Db, req: DispatchRequest, token: string): (Db, PrepareOutcome) {
    var refusal := AdmitRequest(db, req);
    if refusal.Some? then (db, Refused(refusal.value)) else
    var resolution := Resolve(db, req.capture);
    if resolution.None? then (db, Refused(CaptureUnavailable)) else
    var Fence(fence, legacy) := resolution.value;
    var isNew := fence !in db.fences.attempts;
    var row := if isNew then NewAttempt(req, fence, legacy) else db.fences.attempts[fence];
    var caseRefusal := CheckCaseFence(db, req.caseFence);
    if caseRefusal.Some? then (db, Refused(caseRefusal.value))
    else if !isNew && Foreign(row, req) then (db, Refused(LeaseInvalid)) else
    var aliases := Linked(db.fences.aliases, req.capture, row.active, fence);
    if aliases.None? then (db, Refused(CaptureUnavailable)) else
    var (row', outcome) :=
        Decide(row, isNew, legacy || row.legacy, Retained(db, row.active), req, token, fence, db.now);
    if Commits(outcome) then
      (db.(fences := Fences(db.fences.attempts[fence := row'], db.fences.index[row'.semantic := fence],
          aliases.value)), outcome)
    else (db, outcome)
  }

  // ------------------------------------------------------------------- Reserve

  datatype ReserveOutcome =
    | ReserveRefused(refusal: Refusal)
    | NoAllowance
    | Reserved(charged: bool)
    | Exhausted(reason: Reason, retryAfter: Time)

  /** The lease holds the row and its active capture is still admitted. */
  predicate OwnsRow(db: Db, lease: DispatchLease) {
    var f := lease.FenceKey();
    && f in db.fences.attempts
    && db.fences.attempts[f].owner == Some(lease.owner)
    && db.fences.attempts[f].generation == lease.generation
  }

  predicate HoldsUndispatched(db: Db, lease: DispatchLease) {
    && OwnsRow(db, lease)
    && var row := db.fences.attempts[lease.FenceKey()];
    && Later(row.leaseUntil, db.now)
    && (row.state == Prepared || row.state == Admitted)
    && row.active == lease.capture
  }

  /** reserveDispatchBudgetSQL: None when the conditional upsert returns no row. */
  function ChargeBudget(budgets: map<BudgetKey, Budget>, key: BudgetKey, today: int, daily: int, monthly: int)
    : Option<Budget>
  {
    if daily <= 0 || monthly <= 0 then None
    else if key !in budgets then Some(Budget(today, 1, 1))
    else
      var b := budgets[key];
      var used := if b.day == today then b.dailyCalls else 0;
      if b.monthlyCalls < monthly && used < daily then Some(Budget(today, used + 1, b.monthlyCalls + 1)) else None
  }

  function ReserveRefusal(db: Db, lease: DispatchLease, scope: Scope): (r: Option<Refusal>)
    ensures r.None? ==> HoldsUndispatched(db, lease)
  {
    if !HoldsUndispatched(db, lease) || !PublicAdmission(db, lease.capture) then Some(LeaseInvalid) else
    var row := db.fences.attempts[lease.FenceKey()];
    if DispatchScope(row.semantic.task) != Some(scope) then Some(LeaseInvalid)
    else if row.taskKey.Some? && row.taskKey != CaseTask(lease.caseFence) then Some(LeaseInvalid)
    else CheckCaseFence(db, lease.caseFence)
  }

  predicate AlreadyReserved(row: Attempt, scope: Scope, today: int) {
    row.reserved == Some(Reservation(scope, today))
  }

  function AdmitRow(row: Attempt, scope: Scope, today: int): Attempt {
    row.(state := Admitted, reserved := Some(Reservation(scope, today)))
  }

  function NoDispatchRow(row: Attempt, reason: Reason, retry: Time): Attempt {
    row.(state := NoDispatch, leaseUntil := None, retryAfter := Some(retry), audit := row.audit.(reason := reason))
  }

  function ReserveStep(cal: Calendar, db: Db, lease: DispatchLease, scope: Scope, daily: int, monthly: int)
    : (Db, ReserveOutcome)
  {
    var refusal := ReserveRefusal(db, lease, scope);
    if refusal.Some? then (db, ReserveRefused(refusal.value))
    else if daily <= 0 || monthly <= 0 then (db, NoAllowance)
    else
      var f := lease.FenceKey();
      var row := db.fences.attempts[f];
      var today := Today(db);
      var key := BudgetKey(scope, cal.monthOf(today));
      if AlreadyReserved(row, scope, today) then
        (SetAttempt(db, f, AdmitRow(row, scope, today)), Reserved(false))
      else
        var charge := ChargeBudget(db.budgets, key, today, daily, monthly);
        if charge.Some? then
          (SetAttempt(db, f, AdmitRow(row, scope, today)).(budgets := db.budgets[key := charge.value]), Reserved(true))
        else
          var exhausted := key in db.budgets && db.budgets[key].monthlyCalls >= monthly;
          var retry := if exhausted then cal.nextMonth(today) * DAY else (today + 1) * DAY;
          var reason := if exhausted then MonthlyBudget else DailyBudget;
          (SetAttempt(db, f, NoDispatchRow(row, reason, retry)), Exhausted(reason, retry))
  }

  // ------------------------------------------------- BeginDispatch, DeferNoDispatch

  predicate MayDispatch(db: Db, lease: DispatchLease) {
    && OwnsRow(db, lease)
    && var row := db.fences.attempts[lease.FenceKey()];
    && Later(row.leaseUntil, db.now)
    && row.active == lease.capture
    && !row.legacy
    && row.state == Admitted
    && row.reserved.Some? && row.reserved.value.day == Today(db)
    && PublicAdmission(db, lease.capture)
    && row.taskKey == CaseTask(lease.caseFence)
    && (lease.caseFence.Some? ==> CaseHeld(db, lease.caseFence.value))
  }

  function IntentRow(row: Attempt, now: Time): Attempt {
    row.(state := Intent, audit := row.audit.(intentAt := Some(now)))
  }

  function BeginStep(db: Db, lease: DispatchLease): (Db, Option<Refusal>) {
    var f := lease.FenceKey();
    if !OwnsRow(db, lease) then (db, Some(LeaseInvalid)) else
    var caseRefusal := CheckCaseFence(db, lease.caseFence);
    if caseRefusal.Some? then (db, caseRefusal)
    else if !MayDispatch(db, lease) then (db, Some(LeaseInvalid))
    else (SetAttempt(db, f, IntentRow(db.fences.attempts[f], db.now)), None)
  }

  function DeferStep(db: Db, lease: DispatchLease, reason: string, retryAt: Time): (Db, Option<Refusal>) {
    var f := lease.FenceKey();
    if |reason| > 64 || !HoldsUndispatched(db, lease) then (db, Some(LeaseInvalid))
    else
      (SetAttempt(db, f, NoDispatchRow(db.fences.attempts[f], Given(reason), retryAt)), None)
  }

  // ------------------------------------------- ObserveResult, Replay, TaskRecovery

  /** The response agrees with whatever the fence already bound. */
  predicate Agrees(row: Attempt, r: Response) {
    row.bound.Some? ==> row.bound.value == Bound(r.digest, r.observedAt)
  }

  predicate MayObserve(db: Db, lease: DispatchLease, receipt: Receipt) {
    && lease.capture == receipt.capture
    && OwnsRow(db, lease)
    && var row := db.fences.attempts[lease.FenceKey()];
    && !Undispatched(row.state)
    && row.active == lease.capture
    && Retained(db, lease.capture).Some?
    && var r := db.evidence.results[lease.capture];
    && r.digest == receipt.digest && r.status == receipt.status && r.errorClass == receipt.errorClass
    && Agrees(row, r)
  }

  function ObserveStep(db: Db, lease: DispatchLease, receipt: Receipt): (Db, Option<Refusal>) {
    if !MayObserve(db, lease, receipt) then (db, Some(CaptureUnavailable))
    else
      var f := lease.FenceKey();
      var r := db.evidence.results[lease.capture];
      (SetAttempt(db, f, Bind(db.fences.attempts[f], r, db.now, if r.status == 0 then Unknown else Result)), None)
  }

  /** The bound first response of this row, if its evidence is still served. */
  predicate ReplayMatches(row: Attempt, r: Response) {
    && !row.legacy && row.state == Result
    && row.bound == Some(Bound(r.digest, r.observedAt)) && row.answer == Some(Answer(r.status, r.errorClass))
    && r.status > 0 && |r.body| <= MAX_BODY
  }

  datatype ReplayOutcome = ReplayRefused(refusal: Refusal) | ReplayBody(response: Response, capture: CaptureKey)

  function Replay(db: Db, req: DispatchRequest): ReplayOutcome {
    var refusal := AdmitRequest(db, req.(duration := 0));
    if refusal.Some? then ReplayRefused(refusal.value)
    else if req.capture !in db.fences.aliases || db.fences.aliases[req.capture] !in db.fences.attempts
        then ReplayRefused(OutcomeUnknown) else
    var row := db.fences.attempts[db.fences.aliases[req.capture]];
    if row.semantic != req.capture.identity then ReplayRefused(OutcomeUnknown) else
    var caseRefusal := CheckCaseFence(db, req.caseFence);
    if caseRefusal.Some? then ReplayRefused(caseRefusal.value)
    else if row.active !in db.evidence.results || !PublicAdmission(db, row.active)
        then ReplayRefused(OutcomeUnknown) else
    var r := db.evidence.results[row.active];
    if !ReplayMatches(row, r) || row.semantic.task != req.task || row.semantic.source != req.source
        || row.taskKey != CaseTask(req.caseFence) then
      ReplayRefused(OutcomeUnknown)
    else if r.digest != Sha256(r.body) then ReplayRefused(CaptureUnavailable)
    else ReplayBody(r, row.active)
  }

  /** The capture of a row is retained and unexpired; TaskRecovery asks no more. */
  predicate Kept(db: Db, k: CaptureKey) {
    k in db.evidence.captures && db.evidence.captures[k].expiresAt > db.now && k in db.evidence.results
  }

  predicate MayReconcile(db: Db, t: TaskKey, row: Attempt) {
    && row.taskKey == Some(t)
    && (row.state == Intent || row.state == Unknown)
    && !row.legacy
    && Kept(db, row.active)
    && row.active.identity.task == row.semantic.task && row.active.identity.source == row.semantic.source
    && var r := db.evidence.results[row.active];
    && r.status > 0 && |r.body| <= MAX_BODY && Agrees(row, r)
  }

  /** TaskRecovery's first statement: bind a response persisted before a crash. */
  function ReconcileStep(db: Db, t: TaskKey): Db {
    db.(fences := db.fences.(attempts := map f | f in db.fences.attempts ::
      var row := db.fences.attempts[f];
      if MayReconcile(db, t, row) then
        var r := db.evidence.results[row.active];
        Bind(row, r, r.observedAt, Result)
      else row))
  }

  function TaskAttempts(db: Db, t: TaskKey): set<CaptureKey> {
    set f | f in db.fences.attempts && db.fences.attempts[f].taskKey == Some(t)
  }

  predicate SafeToRetry(row: Attempt) {
    !row.legacy && Undispatched(row.state)
  }

  predicate Replayable(db: Db, row: Attempt) {
    Kept(db, row.active) && ReplayMatches(row, db.evidence.results[row.active])
  }
}
