/** What each transaction of the work queue does, exactly, and that a live lease is exclusive. */
module QueueLaws {
  import opened Options
  import opened Ledger
  import opened DispatchSpec
  import opened WorkSpec
  import opened LedgerRuns
  import opened QueueSafety

  // ----------------------------------------------------------------------------- Enqueue

  ghost predicate Ended(s: WorkState) {
    s == Completed || s == Held || s == Obsolete || s == Expired
  }

  /** The unfinished, unexpired tasks of a kind. */
  function Unfinished(db: Db, kind: Scope): set<TaskKey> {
    set k | k in db.queue.tasks && k.kind == kind && db.queue.tasks[k].expiresAt > db.now
            && db.queue.tasks[k].state in {Queued, Deferred, Leased}
  }

  /** Those in one slice of the day. */
  function InSlice(db: Db, kind: Scope, slice: int): set<TaskKey> {
    set k | k in Unfinished(db, kind) && db.queue.tasks[k].bucket == slice
  }

  /** The slice of the UTC day by its hour. */
  function Slice(cfg: Config, now: Time): int {
    now % 86_400_000_000 / 3_600_000_000 * cfg.timeBuckets / 24
  }

  lemma UnfinishedIsPending(cfg: Config, db: Db, kind: Scope, slice: int)
    ensures PendingKeys(db, kind) == Unfinished(db, kind) && BucketKeys(db, kind, slice) == InSlice(db, kind, slice)
    ensures TimeBucket(cfg, db.now) == Slice(cfg, db.now)
  {
  }

  /** A new task is accepted exactly when the queue is on, the draft is in order, its name is
      allowed, its torrent is public, its key is unknown, no unfinished task of its kind is of its
      family, and both the queue and its slice of the day have room. */
  lemma EnqueuedExactly(cfg: Config, db: Db, d: Draft, nameAllowed: bool)
    ensures EnqueueStep(cfg, db, d, nameAllowed).1 == Enqueued <==>
      && cfg.enabled && d.wellFormed && 0 <= d.priority <= 100 && d.dailyLimit >= 0 && d.monthlyLimit >= 0
      && nameAllowed && d.key.infoHash in db.evidence.publicHashes && d.key !in db.queue.tasks
      && (forall k :: k in Unfinished(db, d.key.kind) ==> db.queue.tasks[k].family != d.family)
      && |Unfinished(db, d.key.kind)| < cfg.maxPending
      && |InSlice(db, d.key.kind, Slice(cfg, db.now))| < (cfg.maxPending + cfg.timeBuckets - 1) / cfg.timeBuckets
  {
    hide TimeBucket, PendingKeys, BucketKeys, Slice, InSlice;
    UnfinishedIsPending(cfg, db, d.key.kind, Slice(cfg, db.now));
  }

  /** The row of a new task, and that nothing changes otherwise. */
  lemma EnqueuedState(cfg: Config, db: Db, d: Draft, nameAllowed: bool)
    ensures var (q, outcome) := EnqueueStep(cfg, db, d, nameAllowed);
      && (outcome != Enqueued ==> q == db.queue)
      && (outcome == Enqueued ==>
            && d.key in q.tasks
            && q == db.queue.(tasks := db.queue.tasks[d.key := q.tasks[d.key]], events := db.queue.events + {d.key},
                              nextBorn := db.queue.nextBorn + 1)
            && var t := q.tasks[d.key];
            && t.state == Queued && t.family == d.family && t.priority == d.priority && t.dailyLimit == d.dailyLimit
            && t.bucket == Slice(cfg, db.now) && t.createdAt == db.now && t.retryAfter == db.now
            && t.expiresAt == db.now + cfg.maxTaskAge && t.generation == 0 && t.owner == None && t.leaseUntil == None)
      && (outcome.Existing? ==>
            d.key in db.queue.tasks && outcome.state == db.queue.tasks[d.key].state && Ended(outcome.state))
      && (outcome.Duplicate? ==> d.key in db.queue.tasks && !Ended(db.queue.tasks[d.key].state))
  {
    hide TimeBucket, PendingKeys, BucketKeys, Slice, FamilyPending;
    UnfinishedIsPending(cfg, db, d.key.kind, 0);
  }

  /** Every slice is one of the configured ones. */
  lemma SliceInRange(cfg: Config, now: Time)
    ensures 0 <= Slice(cfg, now) < cfg.timeBuckets
  {
    var hour := now % 86_400_000_000 / 3_600_000_000;
    assert 0 <= hour <= 23;
    assert hour * cfg.timeBuckets <= 23 * cfg.timeBuckets;
  }

  /** In every reachable state the unfinished tasks of a kind fit the queue and their slice of the
      day, and no two are of the same family. */
  lemma QueueBounds(cfg: Config, ops: seq<Op>, kind: Scope, slice: int)
    ensures var db := Run(cfg, START, ops).db;
      && |Unfinished(db, kind)| <= cfg.maxPending
      && |InSlice(db, kind, slice)| <= (cfg.maxPending + cfg.timeBuckets - 1) / cfg.timeBuckets
      && forall a, b :: a in Unfinished(db, kind) && b in Unfinished(db, kind) && a != b ==>
           db.queue.tasks[a].family != db.queue.tasks[b].family
  {
    hide Run, PendingKeys, BucketKeys;
    QueueStaysWithinCapacity(cfg, ops);
    UnfinishedIsPending(cfg, Run(cfg, START, ops).db, kind, slice);
  }

  // ------------------------------------------------------------------------------- Claim

  /** What a task must be to be claimed: waiting, due, unexpired, public, and if new cases are
      spread over the day, urgent or with enough of the day gone for the calls already made. */
  ghost predicate Claimable(cfg: Config, db: Db, k: TaskKey) {
    && k in db.queue.tasks
    && var t := db.queue.tasks[k];
    && (t.state == Queued || t.state == Deferred) && t.retryAfter <= db.now && db.now < t.expiresAt
    && k.infoHash in db.evidence.publicHashes
    && (cfg.spread && t.priority <= 0 ==>
          var key := BudgetKey(k.kind, cfg.calendar.monthOf(Today(db)));
          var calls := if key in db.budgets && db.budgets[key].day == Today(db) then db.budgets[key].dailyCalls else 0;
          t.dailyLimit > 0 && (db.now - Today(db) * 86_400_000_000) * t.dailyLimit >= 86_400_000_000 * calls)
  }

  lemma ClaimableExactly(cfg: Config, db: Db, k: TaskKey)
    ensures Eligible(cfg, db, k) <==> Claimable(cfg, db, k)
  {
  }

  /** A claim leases a claimable task to its owner as the next generation, for a lease duration,
      and changes nothing else but the tasks it ages. */
  lemma ClaimedState(cfg: Config, db: Db, owner: string, aged: set<TaskKey>, pick: Option<TaskKey>)
    requires ClaimStep(cfg, db, owner, aged, pick).1.Some?
    ensures var (q, lease) := ClaimStep(cfg, db, owner, aged, pick);
      && cfg.enabled && cfg.workerEnabled && 0 < |owner| <= 128 && pick == Some(lease.value.task)
      && var k := pick.value;
      && Claimable(cfg, db, k) && k in q.tasks
      && lease.value == WorkLease(k, owner, db.queue.tasks[k].generation + 1)
      && q.tasks[k] == db.queue.tasks[k].(state := Leased, reason := NoReason, owner := Some(owner),
                                          generation := db.queue.tasks[k].generation + 1,
                                          leaseUntil := Some(db.now + cfg.leaseDuration))
      && q.tasks.Keys == db.queue.tasks.Keys
  {
    hide Paced;
    var k := pick.value;
    assert AgeTasks(db.queue, aged).tasks[k] == db.queue.tasks[k];
    SameChecks(cfg, db, AgeTasks(db.queue, aged), k);
    ClaimableExactly(cfg, db, k);
  }

  /** Waiting, and past its age. */
  ghost predicate Overdue(db: Db, k: TaskKey) {
    && k in db.queue.tasks && (db.queue.tasks[k].state == Queued || db.queue.tasks[k].state == Deferred)
    && db.queue.tasks[k].expiresAt <= db.now
  }

  /** A claim succeeds exactly for a named owner of an enabled worker that ages at most 128 overdue
      tasks and picks a claimable one; it ages every one of them, and also if it picks none. */
  lemma ClaimedExactly(cfg: Config, db: Db, owner: string, aged: set<TaskKey>, pick: Option<TaskKey>)
    ensures var mayClaim := cfg.enabled && cfg.workerEnabled && 0 < |owner| <= 128 && |aged| <= 128
                            && forall k :: k in aged ==> Overdue(db, k);
      var (q, lease) := ClaimStep(cfg, db, owner, aged, pick);
      && (lease.Some? <==> mayClaim && pick.Some? && Claimable(cfg, db, pick.value))
      && (lease.Some? || (mayClaim && pick.None?) ==>
            forall k :: k in aged ==>
              k in q.tasks && q.tasks[k] == db.queue.tasks[k].(state := Expired, reason := TaskAge, owner := None,
                                                               leaseUntil := None))
      && (lease.None? && !(mayClaim && pick.None?) ==> q == db.queue)
  {
    hide Paced, Claimable;
    forall k ensures Overdue(db, k) <==> Aged(db, k) {}
    if pick.Some? && forall k :: k in aged ==> Overdue(db, k) { PickedExactly(cfg, db, aged, pick.value); }
  }

  lemma PickedExactly(cfg: Config, db: Db, aged: set<TaskKey>, k: TaskKey)
    requires forall j :: j in aged ==> Overdue(db, j)
    ensures Eligible(cfg, db.(queue := AgeTasks(db.queue, aged)), k) <==> Claimable(cfg, db, k)
  {
    hide Paced;
    if k in db.queue.tasks && k !in aged {
      assert AgeTasks(db.queue, aged).tasks[k] == db.queue.tasks[k];
      SameChecks(cfg, db, AgeTasks(db.queue, aged), k);
      ClaimableExactly(cfg, db, k);
    }
  }

  lemma SameChecks(cfg: Config, db: Db, q: Queue, k: TaskKey)
    requires k in db.queue.tasks && k in q.tasks && q.tasks[k] == db.queue.tasks[k]
    ensures Eligible(cfg, db.(queue := q), k) == Eligible(cfg, db, k)
  {
  }

  /** Only waiting tasks past their age are aged, and they end as expired. */
  lemma AgedState(cfg: Config, db: Db, owner: string, aged: set<TaskKey>, pick: Option<TaskKey>, k: TaskKey)
    requires k in db.queue.tasks && pick != Some(k)
    ensures var q := ClaimStep(cfg, db, owner, aged, pick).0;
      && k in q.tasks
      && (q.tasks[k] == db.queue.tasks[k]
          || (k in aged && (db.queue.tasks[k].state == Queued || db.queue.tasks[k].state == Deferred)
              && db.queue.tasks[k].expiresAt <= db.now
              && q.tasks[k] == db.queue.tasks[k].(state := Expired, reason := TaskAge, owner := None,
                                                  leaseUntil := None)))
  {
    hide Paced;
  }

  /** The latest of some times is no later than the latest of others; having none comes first. */
  ghost predicate WaitedLonger(db: Db, a: TaskKey, b: TaskKey)
    requires a in db.queue.tasks && b in db.queue.tasks
  {
    forall j :: j in db.queue.tasks && Finished(db, j, a) ==>
      exists i :: i in db.queue.tasks && Finished(db, i, b)
        && db.queue.tasks[j].completedAt.value <= db.queue.tasks[i].completedAt.value
  }

  /** A case of the same kind and slice, completed within the last day. */
  ghost predicate Finished(db: Db, j: TaskKey, k: TaskKey)
    requires j in db.queue.tasks && k in db.queue.tasks
  {
    j.kind == k.kind && db.queue.tasks[j].bucket == db.queue.tasks[k].bucket && db.queue.tasks[j].completedAt.Some?
    && db.queue.tasks[j].completedAt.value > db.now - 86_400_000_000
  }

  lemma WaitedExactly(db: Db, a: TaskKey, b: TaskKey)
    requires a in db.queue.tasks && b in db.queue.tasks
    ensures NoLaterThan(RecentlyDone(db, a), RecentlyDone(db, b)) <==> WaitedLonger(db, a, b)
  {
    if NoLaterThan(RecentlyDone(db, a), RecentlyDone(db, b)) {
      forall j | j in db.queue.tasks && Finished(db, j, a)
        ensures exists i :: i in db.queue.tasks && Finished(db, i, b)
                  && db.queue.tasks[j].completedAt.value <= db.queue.tasks[i].completedAt.value
      {
        assert db.queue.tasks[j].completedAt.value in RecentlyDone(db, a);
        var y :| y in RecentlyDone(db, b) && db.queue.tasks[j].completedAt.value <= y;
        var i :| i in db.queue.tasks && Finished(db, i, b) && db.queue.tasks[i].completedAt.value == y;
      }
    }
    if WaitedLonger(db, a, b) {
      forall x | x in RecentlyDone(db, a) ensures exists y :: y in RecentlyDone(db, b) && x <= y {
        var j :| j in db.queue.tasks && Finished(db, j, a) && db.queue.tasks[j].completedAt.value == x;
        var i :| i in db.queue.tasks && Finished(db, i, b) && x <= db.queue.tasks[i].completedAt.value;
        assert db.queue.tasks[i].completedAt.value in RecentlyDone(db, b);
      }
    }
  }

  /** What coming first means: no other has more urgency; of equal urgency none is in a slice that
      has waited longer; of those none is older; of those none has a smaller key. */
  lemma FirstMeans(db: Db, keyOrder: TaskKey -> nat, a: TaskKey, b: TaskKey)
    requires a in db.queue.tasks && b in db.queue.tasks
    ensures var t, u := db.queue.tasks[a], db.queue.tasks[b];
      Precedes(db, keyOrder, a, b) <==>
        && u.priority <= t.priority
        && (u.priority == t.priority ==> WaitedLonger(db, a, b))
        && (u.priority == t.priority && WaitedLonger(db, b, a) ==> t.createdAt <= u.createdAt)
        && (u.priority == t.priority && WaitedLonger(db, b, a) && t.createdAt == u.createdAt ==>
              keyOrder(a) <= keyOrder(b))
  {
    hide WaitedLonger, NoLaterThan, RecentlyDone;
    WaitedExactly(db, a, b);
    WaitedExactly(db, b, a);
  }

  // ------------------------------------------------- Heartbeat, MarkProgress, Finish, Apply

  /** The lease is the one the row shows, and still running. */
  ghost predicate Live(db: Db, l: WorkLease) {
    && l.task in db.queue.tasks
    && var t := db.queue.tasks[l.task];
    && t.state == Leased && t.owner == Some(l.owner) && t.generation == l.generation
    && t.leaseUntil.Some? && db.now < t.leaseUntil.value
  }

  lemma LiveExactly(db: Db, l: WorkLease)
    ensures Owns(db, l) <==> Live(db, l)
  {
  }

  /** Each of the four answers the holder of a live lease and nobody else; Finish and Apply have
      their own further conditions. */
  lemma AnsweredExactly(cfg: Config, db: Db, l: WorkLease, s: WorkState, reason: string, at: Time, adapter: Adapter)
    ensures HeartbeatStep(cfg, db, l).1 <==> Live(db, l)
    ensures ProgressStep(db, l).1 <==> Live(db, l)
    ensures FinishStep(db, l, s, reason, at).1 <==>
      Live(db, l) && |reason| <= 64 && (s == Deferred || s == Completed || s == Held || s == Obsolete)
    ensures ApplyStep(db, l, reason, adapter).1 <==>
      && Live(db, l) && !adapter.NameBlocked? && !adapter.AdapterFails?
      && !(adapter.AdapterSucceeds? && adapter.recordsApplication && l.task in db.queue.applications)
  {
    hide Live, LeaseLive, Owns;
    LiveExactly(db, l);
  }

  /** What they write. */
  lemma WrittenState(cfg: Config, db: Db, l: WorkLease, s: WorkState, reason: string, at: Time, adapter: Adapter)
    requires Live(db, l)
    ensures var q, t := db.queue, db.queue.tasks[l.task];
      && HeartbeatStep(cfg, db, l).0 ==
           q.(tasks := q.tasks[l.task := t.(leaseUntil := Some(db.now + cfg.leaseDuration))])
      && ProgressStep(db, l).0 == q.(tasks := q.tasks[l.task := t.(priority := 100)])
      && (FinishStep(db, l, s, reason, at).1 ==>
            FinishStep(db, l, s, reason, at).0 == q.(events := q.events + {l.task}, tasks := q.tasks[
              l.task := t.(state := s, reason := Given(reason), retryAfter := at, owner := None, leaseUntil := None,
                           completedAt := if s == Completed then Some(db.now) else t.completedAt)]))
      && (ApplyStep(db, l, reason, adapter).1 ==>
            ApplyStep(db, l, reason, adapter).0 == q.(
              events := q.events + {l.task},
              tasks := q.tasks[l.task := t.(state := Completed, reason := Given(reason), owner := None,
                                            leaseUntil := None, completedAt := Some(db.now))],
              applications := if adapter.AdapterSucceeds? && adapter.recordsApplication then q.applications + {l.task}
                              else q.applications))
  {
  }

  // ------------------------------------------------------------------ a live lease excludes

  /** The operation is presented by the holder of this lease. */
  ghost predicate ByHolder(op: Op, l: WorkLease) {
    && op.OnQueue? && (op.queue.Heartbeat? || op.queue.Progress? || op.queue.Finish? || op.queue.Apply?)
    && op.queue.work == l
  }

  lemma QueueLeavesLive(cfg: Config, db: Db, op: QueueOp, l: WorkLease)
    requires Live(db, l) && !ByHolder(OnQueue(op), l)
    ensures l.task in QueueNext(cfg, db, op).tasks && QueueNext(cfg, db, op).tasks[l.task] == db.queue.tasks[l.task]
  {
    hide Paced, FamilyPending, PendingKeys, BucketKeys;
  }

  /** While a lease runs, no step but its holder's touches the task row. */
  lemma StepLeavesLive(cfg: Config, w: World, op: Op, l: WorkLease)
    requires Live(w.db, l) && !ByHolder(op, l)
    ensures var q := Step(cfg, w, op).db.queue; l.task in q.tasks && q.tasks[l.task] == w.db.queue.tasks[l.task]
  {
    hide FenceNext, QueueNext, EvidenceNext, ReconcileStep, NextRecoveries, NextDispatches, NextCharges, NextApplied,
      ByHolder;
    match op
    case OnFence(o) => FenceLeavesQueue(cfg, w.db, o);
    case OnQueue(o) => QueueLeavesLive(cfg, w.db, o, l);
    case _ =>
  }

  /** Until a lease ends, whatever runs, the task row stays as it is unless its holder acts. */
  lemma {:induction false} LiveLeaseIsExclusive(cfg: Config, w: World, ops: seq<Op>, l: WorkLease)
    requires Live(w.db, l) && w.db.queue.tasks[l.task].leaseUntil.value > Run(cfg, w, ops).db.now
    requires forall op :: op in ops ==> !ByHolder(op, l)
    ensures var q := Run(cfg, w, ops).db.queue; l.task in q.tasks && q.tasks[l.task] == w.db.queue.tasks[l.task]
    decreases |ops|
  {
    hide Step, ByHolder;
    if ops != [] {
      var v := Step(cfg, w, ops[0]);
      StepClock(cfg, w, ops[0]);
      TimePasses(cfg, v, ops[1..]);
      StepLeavesLive(cfg, w, ops[0], l);
      LiveLeaseIsExclusive(cfg, v, ops[1..], l);
    }
  }

  lemma {:induction false} TimePasses(cfg: Config, w: World, ops: seq<Op>)
    ensures w.db.now <= Run(cfg, w, ops).db.now
    decreases |ops|
  {
    hide Step;
    if ops != [] {
      StepClock(cfg, w, ops[0]);
      TimePasses(cfg, Step(cfg, w, ops[0]), ops[1..]);
    }
  }

  // ----------------------------------------------------------------------------- Cleanup

  /** Past its age, and waiting or with a lease that ran out. */
  ghost predicate Abandoned(db: Db, t: WorkTask) {
    && t.expiresAt <= db.now
    && (t.state == Queued || t.state == Deferred
        || (t.state == Leased && t.leaseUntil.Some? && t.leaseUntil.value <= db.now))
  }

  /** Cleanup deletes a task only past its age, ended or abandoned, and never one that was applied;
      of an applied one it empties the payload. Abandoned tasks end as held if they were leased and
      as expired if they waited. */
  lemma CleanedState(db: Db, aged: set<TaskKey>, swept: set<TaskKey>, k: TaskKey)
    requires k in db.queue.tasks
    ensures var (q, t) := (CleanupStep(db, aged, swept).0, db.queue.tasks[k]);
      && (k !in q.tasks ==>
            k in swept && k !in db.queue.applications && t.expiresAt <= db.now && (Ended(t.state) || Abandoned(db, t)))
      && (k in q.tasks && q.tasks[k].state != t.state ==>
            Abandoned(db, t) && q.tasks[k].state == (if t.state == Leased then Held else Expired)
            && q.tasks[k].reason == TaskAge && q.tasks[k].owner == None && q.tasks[k].leaseUntil == None)
      && (k in q.tasks && q.tasks[k].scrubbed != t.scrubbed ==> k in swept && k in db.queue.applications)
      && (CleanupStep(db, aged, swept).1 && k in swept && k !in db.queue.applications ==> k !in q.tasks)
      && (CleanupStep(db, aged, swept).1 && k in aged && k in q.tasks ==>
            q.tasks[k].state == (if t.state == Leased then Held else Expired))
      && (CleanupStep(db, aged, swept).1 && k in swept && k in q.tasks ==> q.tasks[k].scrubbed)
  {
  }

  /** It runs exactly on at most 128 abandoned tasks and at most 128 that have then ended past
      their age and still have a payload, events or no application. */
  lemma CleansExactly(db: Db, aged: set<TaskKey>, swept: set<TaskKey>)
    ensures CleanupStep(db, aged, swept).1 <==>
      && |aged| <= 128 && (forall k :: k in aged ==> k in db.queue.tasks && Abandoned(db, db.queue.tasks[k]))
      && |swept| <= 128
      && (forall k :: k in swept ==>
            && k in db.queue.tasks && db.queue.tasks[k].expiresAt <= db.now
            && (k in aged || Ended(db.queue.tasks[k].state))
            && (!db.queue.tasks[k].scrubbed || k in db.queue.events || k in aged || k !in db.queue.applications))
  {
    var q := AgeForCleanup(db.queue, aged);
    forall k | k in db.queue.tasks
      ensures q.tasks[k].expiresAt == db.queue.tasks[k].expiresAt && q.tasks[k].scrubbed == db.queue.tasks[k].scrubbed
      ensures Terminal(q.tasks[k].state) <==> k in aged || Ended(db.queue.tasks[k].state)
    {
    }
  }
}
