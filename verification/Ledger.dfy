/**
The tables shared by the dispatch controller and the owned work queue, as one
value `Db`.  Every SQL transaction of the two packages is one function on `Db`
(see DispatchSpec and WorkSpec); a rolled back transaction returns its argument.
Digests are idealised as free constructors: a capture key is the request identity
together with the build that captured it, the semantic key is the identity alone,
and a response digest is `Sha256` of its body.
*/
module Ledger {
  import opened Options

  /** Microseconds of the database's UTC clock. */
  type Time = int
  const DAY := 86_400_000_000
  const HOUR := 3_600_000_000
  const MAX_BODY := 131072
  const MAX_DISPATCH_LEASE := 900_000_000
  const DEFAULT_DISPATCH_LEASE := 60_000_000
  const MAX_TASK_ATTEMPTS := 256

  type InfoHash = nat

  datatype Task =
    | MatcherExtract | MatcherRerank | MatcherEmbedding | ContentFilterTask | JunkPurgeTask | ClassifierTypeTask
  datatype CandidateSource = NoSource | Local | Api
  datatype SamplingOrigin = NaturalCapture | SafetyTopUp
  datatype Scope = Matcher | ClassifierType | ContentFilter

  /** Every build-independent dimension of a captured request; `request` stands for
      the group, input, prompt, endpoint, model, prompt version and contract. */
  datatype Identity = Identity(task: Task, source: CandidateSource, origin: SamplingOrigin, infoHash: InfoHash,
      request: nat)

  datatype CaptureKey = CaptureKey(identity: Identity, build: nat)

  datatype TaskKey = TaskKey(kind: Scope, infoHash: InfoHash, sourceDigest: nat, policyDigest: nat, inputDigest: nat)

  datatype Capture = Capture(capturedAt: Time, expiresAt: Time)

  datatype Digest = Sha256(body: string)

  /** A row of llm_evaluation_capture_results. */
  datatype Response = Response(body: string, digest: Digest, status: nat, errorClass: string, observedAt: Time)

  datatype AttemptState = Prepared | NoDispatch | Admitted | Intent | Unknown | Result

  /** The first response bound to a fence: its digest and when it was observed. */
  datatype Bound = Bound(digest: Digest, observedAt: Time)
  datatype Answer = Answer(status: nat, errorClass: string)
  datatype Reservation = Reservation(scope: Scope, day: int)

  /** The reason columns of both tables; `Given` carries a caller's own text. */
  datatype Reason =
    | NoReason
    | UncertainOrExpiredResult
    | DailyBudget
    | MonthlyBudget
    | TaskAge
    | ExpiredLeaseNeedsReconcile
    | UnknownDispatchOrExpiredResponse
    | RecoveredBeforeDispatchOrReplay
    | Given(text: string)

  datatype Audit = Audit(reason: Reason, intentAt: Option<Time>, resultAt: Option<Time>)

  /** A row of llm_capture_dispatch_attempts: the permanent fence of one semantic key.
      Columns that are only ever written together are one optional field; the task and
      candidate source columns are those of the semantic identity. */
  datatype Attempt = Attempt(
    semantic: Identity,
    active: CaptureKey,
    legacy: bool,
    taskKey: Option<TaskKey>,
    state: AttemptState,
    owner: Option<string>,
    generation: nat,
    leaseUntil: Option<Time>,
    retryAfter: Option<Time>,
    reserved: Option<Reservation>,
    bound: Option<Bound>,
    answer: Option<Answer>,
    audit: Audit)

  /** A row of llm_request_budgets, keyed by scope and month. */
  datatype Budget = Budget(day: int, dailyCalls: nat, monthlyCalls: nat)
  datatype BudgetKey = BudgetKey(scope: Scope, month: int)

  datatype WorkState = Queued | Deferred | Leased | Completed | Held | Obsolete | Expired

  /** A row of llm_work_tasks.  `born` numbers the lifetimes of rows: it has no
      column, it only lets a statement name one lifetime of a task key. */
  datatype WorkTask = WorkTask(
    family: nat,
    scrubbed: bool,
    priority: nat,
    bucket: int,
    dailyLimit: nat,
    state: WorkState,
    reason: Reason,
    createdAt: Time,
    retryAfter: Time,
    expiresAt: Time,
    owner: Option<string>,
    generation: nat,
    leaseUntil: Option<Time>,
    completedAt: Option<Time>,
    born: nat)

  /** Retained captures and responses, and the hashes that are public right now. */
  datatype Evidence = Evidence(publicHashes: set<InfoHash>, captures: map<CaptureKey, Capture>,
      results: map<CaptureKey, Response>)

  /** The permanent fences; `index` is the unique index on their semantic keys. */
  datatype Fences = Fences(attempts: map<CaptureKey, Attempt>, index: map<Identity, CaptureKey>,
      aliases: map<CaptureKey, CaptureKey>)

  /** The work queue; `events` holds the tasks that still have event rows. */
  datatype Queue = Queue(tasks: map<TaskKey, WorkTask>, events: set<TaskKey>, applications: set<TaskKey>, nextBorn: nat)

  datatype Db = Db(now: Time, evidence: Evidence, fences: Fences, budgets: map<BudgetKey, Budget>, queue: Queue)

  const EMPTY: Db := Db(0, Evidence({}, map[], map[]), Fences(map[], map[], map[]), map[], Queue(map[], {}, {}, 0))

  /** The month of a UTC day and the first day of the month after it. */
  datatype Calendar = Calendar(monthOf: int -> int, nextMonth: int -> int)

  function Today(db: Db): int {
    db.now / DAY
  }

  /** resultPublicAdmissionSQL: the capture is retained, unexpired and still public. */
  predicate PublicAdmission(db: Db, k: CaptureKey) {
    && k in db.evidence.captures
    && k.identity.task != JunkPurgeTask
    && db.evidence.captures[k].expiresAt > db.now
    && k.identity.infoHash in db.evidence.publicHashes
  }

  predicate Later(t: Option<Time>, now: Time) {
    t.Some? && t.value > now
  }

  predicate TaskSourceValid(task: Task, source: CandidateSource) {
    match task
    case MatcherExtract | ContentFilterTask | JunkPurgeTask | ClassifierTypeTask => source == NoSource
    case MatcherRerank | MatcherEmbedding => source != NoSource
  }

  predicate OriginValid(task: Task, origin: SamplingOrigin) {
    origin == SafetyTopUp ==> task == JunkPurgeTask
  }

  function DispatchScope(task: Task): Option<Scope> {
    match task
    case MatcherExtract | MatcherRerank | MatcherEmbedding => Some(Matcher)
    case ClassifierTypeTask => Some(ClassifierType)
    case ContentFilterTask => Some(ContentFilter)
    case JunkPurgeTask => None
  }

  // -------------------------------------------------------------- the case fence

  datatype Recheck = Missing | Passes | Fails

  /** The lease of a work task under which a request is dispatched. */
  datatype CaseFence = CaseFence(task: TaskKey, owner: string, generation: int, sourceDigest: nat, policyDigest: nat,
      recheck: Recheck)

  /** The task row is leased to this very generation and the lease is live. */
  predicate LeaseLive(db: Db, k: TaskKey, owner: string, generation: int) {
    && k in db.queue.tasks
    && var t := db.queue.tasks[k];
    && t.state == Leased && t.owner == Some(owner) && t.generation == generation && Later(t.leaseUntil, db.now)
  }

  predicate CaseHeld(db: Db, c: CaseFence) {
    && LeaseLive(db, c.task, c.owner, c.generation)
    && c.sourceDigest == c.task.sourceDigest
    && c.policyDigest == c.task.policyDigest
  }

  datatype Refusal = CaptureUnavailable | PrivacyBlocked | LeaseInvalid | OutcomeUnknown | SourceChanged

  function CheckCaseFence(db: Db, c: Option<CaseFence>): (r: Option<Refusal>)
    ensures r.None? && c.Some? ==> CaseHeld(db, c.value)
  {
    if c.None? then None
    else if c.value.recheck == Missing || !CaseHeld(db, c.value) then Some(LeaseInvalid)
    else if c.value.recheck == Fails then Some(SourceChanged)
    else None
  }
}
