/**
The work queue's Store: every method is one transaction, or the loop over transactions
that the source runs, proved against WorkSpec and LedgerRuns.
*/
module WorkStore {
  import opened Options
  import opened Ledger
  import opened DispatchSpec
  import opened WorkSpec
  import opened LedgerRuns
  import opened Database
  import opened FiniteSets

  /** One row of TaskRecovery's answer. */
  datatype DispatchRecovery = DispatchRecovery(capture: CaptureKey, state: AttemptState, replayable: bool,
      safeToRetry: bool)

  function RecoveryOf(db: Db, row: Attempt): DispatchRecovery {
    DispatchRecovery(row.active, row.state, Replayable(db, row), SafeToRetry(row))
  }

  /** What one item of recoverExpired does when nothing else runs in between; None when
      TaskRecovery refuses to judge more than 256 attempts. */
  ghost function RecoverItem(cfg: Config, db: Db, k: TaskKey, generation: int): Option<Db> {
    var bound := if cfg.dispatchEnabled then ReconcileStep(db, k) else db;
    var stage := JudgeStage(cfg, bound, k);
    if stage.Judged? then Some(bound.(queue := RecoverStep(bound, k, generation, stage.verdict).0)) else None
  }

  /** All items in order; an item that cannot be judged ends the call with an error. */
  ghost function RecoverItems(cfg: Config, db: Db, items: seq<(TaskKey, int)>): (Db, bool)
    decreases |items|
  {
    if items == [] then (db, true) else
    var next := RecoverItem(cfg, db, items[0].0, items[0].1);
    if next.None? then (if cfg.dispatchEnabled then ReconcileStep(db, items[0].0) else db, false)
    else RecoverItems(cfg, next.value, items[1..])
  }

  function KeySet(keys: seq<TaskKey>): set<TaskKey> {
    set k | k in keys
  }

  /** How a handler ended. */
  datatype HandlerResult = Succeeded | AskedToDefer(reason: string,
      retryAfter: Time) | Declined(reason: string) | SourceObsolete | Failed

  /** The application of this exact generation has committed. */
  predicate CompletedUnder(db: Db, l: WorkLease) {
    l.task in db.queue.tasks && db.queue.tasks[l.task].state == Completed
        && db.queue.tasks[l.task].generation == l.generation
  }

  class Store {
    const db: Tables
    const cfg: Config
    /** The byte order of task keys and of capture keys. */
    const keyOrder: TaskKey -> nat
    const captureOrder: CaptureKey -> nat

    constructor (db: Tables, cfg: Config, keyOrder: TaskKey -> nat, captureOrder: CaptureKey -> nat)
      ensures this.db == db && this.cfg == cfg && this.keyOrder == keyOrder && this.captureOrder == captureOrder
    {
      this.db, this.cfg, this.keyOrder, this.captureOrder := db, cfg, keyOrder, captureOrder;
    }

    method Enqueue(d: Draft, nameAllowed: bool) returns (outcome: EnqueueOutcome)
      modifies db`tasks, db`events, db`nextBorn
      ensures (db.Work(), outcome) == EnqueueStep(cfg, old(db.View()), d, nameAllowed)
    {
      if !cfg.enabled {
        return Disabled;
      }
      if !ValidDraft(d) {
        return Invalid;
      }
      if !nameAllowed {
        return NamePolicy;
      }
      if d.key.infoHash !in db.publicHashes {
        return Privacy;
      }
      if d.key in db.tasks {
        var existing := db.tasks[d.key].state;
        if existing == Completed || existing == Held || existing == Obsolete || existing == Expired {
          return Existing(existing);
        }
        return Duplicate;
      }
      var bucket := TimeBucket(cfg, db.now);
      var pending := PendingKeys(db.View(), d.key.kind);
      var inBucket := set k | k in pending && db.tasks[k].bucket == bucket;
      assert inBucket == BucketKeys(db.View(), d.key.kind, bucket);
      if exists k :: k in pending && db.tasks[k].family == d.family {
        return FamilySampled;
      }
      if |pending| >= cfg.maxPending || |inBucket| >= (cfg.maxPending + cfg.timeBuckets - 1) / cfg.timeBuckets {
        return Full;
      }
      var t := WorkTask(d.family, d.emptyPayload, d.priority, bucket, d.dailyLimit, Queued, NoReason, db.now, db.now,
                        db.now + cfg.maxTaskAge, None, 0, None, None, db.nextBorn);
      db.tasks := db.tasks[d.key := t];
      db.events := db.events + {d.key};
      db.nextBorn := db.nextBorn + 1;
      return Enqueued;
    }

    /** Claim's transaction; `aged` are the rows its first query took, `unlocked` those its
        second could lock. It leases the first of them in its order. */
    method Claim(owner: string, aged: set<TaskKey>, unlocked: set<TaskKey>) returns (lease: Option<WorkLease>)
      modifies db`tasks, db`events
      ensures (db.Work(), lease) ==
        ClaimStep(cfg, old(db.View()), owner, aged, if lease.Some? then Some(lease.value.task) else None)
      ensures var after := old(db.View()).(queue := AgeTasks(old(db.Work()), aged));
        if lease.Some? then FirstEligible(after, unlocked, lease.value.task)
        else MayClaim(cfg, old(db.View()), owner, aged) ==> forall k :: k in unlocked ==> !Eligible(cfg, after, k)
    {
      hide Paced, Aged, Precedes;
      if !cfg.enabled || !cfg.workerEnabled || |owner| == 0 || |owner| > 128 {
        return None;
      }
      if |aged| > MAX_SWEEP || !(forall k :: k in aged ==> Aged(db.View(), k)) {
        return None;
      }
      var before := db.tasks;
      db.tasks := map k | k in before :: if k in aged then Release(before[k], Expired, TaskAge) else before[k];
      db.events := db.events + aged;
      assert db.Work() == AgeTasks(old(db.Work()), aged);
      var pick := FirstOf(db.View(), unlocked);
      if pick.None? {
        return None;
      }
      var t := db.tasks[pick.value];
      t := t.(state := Leased, reason := NoReason, owner := Some(owner), generation := t.generation + 1);
      t := t.(leaseUntil := Some(db.now + cfg.leaseDuration));
      db.tasks := db.tasks[pick.value := t];
      db.events := db.events + {pick.value};
      return Some(WorkLease(pick.value, owner, t.generation));
    }

    /** k is eligible and unlocked, and no other such task comes strictly before it. */
    predicate FirstEligible(view: Db, unlocked: set<TaskKey>, k: TaskKey) {
      && k in unlocked && Eligible(cfg, view, k)
      && forall j :: j in unlocked && Eligible(cfg, view, j) ==> Precedes(view, keyOrder, k, j)
    }

    /** The ORDER BY and LIMIT of Claim's query. */
    method FirstOf(view: Db, unlocked: set<TaskKey>) returns (first: Option<TaskKey>)
      ensures first.None? ==> forall k :: k in unlocked ==> !Eligible(cfg, view, k)
      ensures first.Some? ==> FirstEligible(view, unlocked, first.value)
    {
      hide Eligible, Precedes;
      first := None;
      var rest := set k | k in unlocked && Eligible(cfg, view, k);
      ghost var all := rest;
      forall k | k in all ensures k in view.queue.tasks { EligibleIsThere(cfg, view, k); }
      while rest != {}
        invariant rest <= all
        invariant first.None? ==> rest == all
        invariant first.Some? ==> first.value in all && forall j :: j in all - rest ==>
          Precedes(view, keyOrder, first.value, j)
        decreases |rest|
      {
        var k :| k in rest;
        PrecedesTotal(view, keyOrder, k, k);
        if first.None? {
          first := Some(k);
        } else {
          PrecedesTotal(view, keyOrder, k, first.value);
          if !Precedes(view, keyOrder, first.value, k) {
            forall j | j in all - rest ensures Precedes(view, keyOrder, k, j) {
              PrecedesTransitive(view, keyOrder, k, first.value, j);
            }
            first := Some(k);
          }
        }
        rest := rest - {k};
      }
      forall k | k in unlocked && Eligible(cfg, view, k) ensures k in all {
      }
    }

    method Heartbeat(l: WorkLease) returns (ok: bool)
      modifies db`tasks
      ensures (db.Work(), ok) == HeartbeatStep(cfg, old(db.View()), l)
    {
      ok := Owns(db.View(), l);
      if ok {
        db.tasks := db.tasks[l.task := db.tasks[l.task].(leaseUntil := Some(db.now + cfg.leaseDuration))];
      }
    }

    method MarkProgress(l: WorkLease) returns (ok: bool)
      modifies db`tasks
      ensures (db.Work(), ok) == ProgressStep(old(db.View()), l)
    {
      ok := Owns(db.View(), l);
      if ok {
        db.tasks := db.tasks[l.task := db.tasks[l.task].(priority := 100)];
      }
    }

    method Finish(l: WorkLease, s: WorkState, reason: string, retryAfter: Time) returns (ok: bool)
      modifies db`tasks, db`events
      ensures (db.Work(), ok) == FinishStep(old(db.View()), l, s, reason, retryAfter)
    {
      if !Finishable(s) || |reason| > 64 || !Owns(db.View(), l) {
        return false;
      }
      var t := db.tasks[l.task].(state := s, reason := Given(reason), retryAfter := retryAfter, owner := None,
          leaseUntil := None);
      if s == Completed {
        t := t.(completedAt := Some(db.now));
      }
      db.tasks := db.tasks[l.task := t];
      db.events := db.events + {l.task};
      return true;
    }

    method Apply(l: WorkLease, reason: string, adapter: Adapter) returns (ok: bool)
      modifies db`tasks, db`events, db`applications
      ensures (db.Work(), ok) == ApplyStep(old(db.View()), l, reason, adapter)
    {
      if !Owns(db.View(), l) {
        return false;
      }
      if adapter.NameBlocked? || adapter.AdapterFails? {
        return false;
      }
      if adapter.AdapterSucceeds? && adapter.recordsApplication {
        if l.task in db.applications {
          return false;
        }
        db.applications := db.applications + {l.task};
      }
      var t := db.tasks[l.task].(state := Completed, reason := Given(reason), completedAt := Some(db.now),
          owner := None, leaseUntil := None);
      db.tasks := db.tasks[l.task := t];
      db.events := db.events + {l.task};
      return true;
    }

    /** The end of RunOne.  A handler that reports success without a committed application
        of its own generation leaves the task held. */
    method Conclude(l: WorkLease, result: HandlerResult, wallClock: Time) returns (ok: bool)
      modifies db`tasks, db`events
      ensures forall k :: k in db.tasks ==>
        k in old(db.tasks) && (db.tasks[k].state == Completed ==> old(db.tasks)[k].state == Completed)
      ensures result.Succeeded? && CompletedUnder(old(db.View()), l) ==> ok && db.View() == old(db.View())
      ensures old(Owns(db.View(), l)) && (result.AskedToDefer? || result.Declined? ==> |result.reason| <= 64) ==>
        ok && l.task in db.tasks && db.tasks[l.task].state ==
          match result
          case AskedToDefer(_, _) => Deferred
          case Declined(_) => Obsolete
          case SourceObsolete => Obsolete
          case Succeeded => Held
          case Failed => Held
    {
      if result.Succeeded? && CompletedUnder(db.View(), l) {
        return true;
      }
      var state, reason, retry := Completed, "completed", wallClock;
      match result {
        case AskedToDefer(r, at) => state, reason, retry := Deferred, r, at;
        case Declined(r) => state, reason := Obsolete, r;
        case SourceObsolete => state, reason := Obsolete, "source_or_policy_changed";
        case Succeeded => state, reason := Held, "reconciliation_required";
        case Failed => state, reason := Held, "reconciliation_required";
      }
      ok := Finish(l, state, reason, retry);
    }

    /** TaskRecovery: bind responses persisted before a crash, then list every attempt in the
        order of its key. */
    method TaskRecovery(t: TaskKey) returns (ok: bool, items: seq<DispatchRecovery>)
      modifies db`attempts
      ensures db.View() == ReconcileStep(old(db.View()), t)
      ensures ok == (|TaskAttempts(db.View(), t)| <= MAX_TASK_ATTEMPTS)
      ensures ok ==> exists keys :: Lists(db.View(), t, captureOrder, keys, items)
    {
      hide MayReconcile, Bind, TaskAttempts, Lists;
      var before := db.View();
      db.attempts := ReconcileStep(before, t).fences.attempts;
      ok, items := ListAttempts(db.View(), t);
    }

    /** The second query of TaskRecovery and the loop over its rows. */
    method ListAttempts(view: Db, t: TaskKey) returns (ok: bool, items: seq<DispatchRecovery>)
      ensures ok == (|TaskAttempts(view, t)| <= MAX_TASK_ATTEMPTS)
      ensures ok ==> exists keys :: Lists(view, t, captureOrder, keys, items)
    {
      hide RecoveryOf, Described, InOrder, Members;
      var rest := TaskAttempts(view, t);
      ghost var all, keys: seq<CaptureKey> := rest, [];
      items := [];
      NothingListed(view, captureOrder);
      while rest != {}
        invariant rest <= all && |items| + |rest| == |all| && |items| <= MAX_TASK_ATTEMPTS
        invariant Members(keys) == all - rest && Described(view, keys, items) && InOrder(captureOrder, keys)
        invariant forall f, g :: f in Members(keys) && g in rest ==> captureOrder(f) <= captureOrder(g)
        decreases |rest|
      {
        var f := FirstKey(rest);
        DescribeOneMore(view, captureOrder, keys, items, f);
        keys := keys + [f];
        items := items + [RecoveryOf(view, view.fences.attempts[f])];
        rest := rest - {f};
        if |items| > MAX_TASK_ATTEMPTS {
          return false, [];
        }
      }
      ok := true;
      assert Lists(view, t, captureOrder, keys, items);
    }

    method FirstKey(keys: set<CaptureKey>) returns (first: CaptureKey)
      requires keys != {}
      ensures first in keys && forall k :: k in keys ==> captureOrder(first) <= captureOrder(k)
    {
      first :| first in keys;
      var rest := keys - {first};
      while rest != {}
        invariant rest <= keys && first in keys
        invariant forall k :: k in keys - rest ==> captureOrder(first) <= captureOrder(k)
        decreases |rest|
      {
        var k :| k in rest;
        if captureOrder(k) < captureOrder(first) {
          first := k;
        }
        rest := rest - {k};
      }
    }

    /** The loop of recoverExpired over the attempts of one task, with its early exit. */
    method JudgeAttempts(items: seq<DispatchRecovery>) returns (safe: bool, progressed: bool)
      ensures safe <==> forall i :: 0 <= i < |items| ==> items[i].safeToRetry || items[i].replayable
      ensures safe ==> (progressed <==> exists i :: 0 <= i < |items| && items[i].replayable)
    {
      safe, progressed := true, false;
      for i := 0 to |items|
        invariant safe && forall j :: 0 <= j < i ==> items[j].safeToRetry || items[j].replayable
        invariant progressed <==> exists j :: 0 <= j < i && items[j].replayable
      {
        if items[i].replayable {
          progressed := true;
        }
        if !items[i].safeToRetry && !items[i].replayable {
          return false, progressed;
        }
      }
    }

    method JudgeTask(t: TaskKey) returns (ok: bool, verdict: Verdict)
      modifies db`attempts
      ensures db.View() == if cfg.dispatchEnabled then ReconcileStep(old(db.View()), t) else old(db.View())
      ensures JudgeStage(cfg, db.View(), t) == if ok then Judged(verdict) else Aborted
    {
      hide ReconcileStep, TaskAttempts;
      verdict := NoController;
      if !cfg.dispatchEnabled {
        return true, verdict;
      }
      var items;
      ok, items := TaskRecovery(t);
      if ok {
        var safe, progressed := JudgeAttempts(items);
        verdict := if safe then Safe(progressed) else Unsafe;
        ghost var keys :| Lists(db.View(), t, captureOrder, keys, items);
        ItemsSpeakForAttempts(db.View(), t, captureOrder, keys, items);
      }
    }

    /** recoverExpired over the leases that its query selected. */
    method RecoverExpired(selected: seq<(TaskKey, int)>) returns (ok: bool)
      modifies db`attempts, db`tasks, db`events
      ensures (db.View(), ok) == RecoverItems(cfg, old(db.View()), selected)
    {
      hide JudgeStage, ReconcileStep;
      ghost var start := db.View();
      var i := 0;
      while i < |selected|
        invariant 0 <= i <= |selected|
        invariant RecoverItems(cfg, start, selected) == RecoverItems(cfg, db.View(), selected[i..])
      {
        var (k, generation) := selected[i];
        assert selected[i..][0] == selected[i] && selected[i..][1..] == selected[i + 1..];
        var judged, verdict := JudgeTask(k);
        if !judged {
          return false;
        }
        if k in db.tasks && db.tasks[k].generation == generation && LeaseExpired(db.View(), db.tasks[k]) {
          db.tasks := db.tasks[k := RecoveredTask(k, db.tasks[k], verdict, db.now)];
          db.events := db.events + {k};
        }
        i := i + 1;
      }
      return true;
    }

    /** Cleanup; `aged` and `keys` are the unlocked rows its two queries found. */
    method Cleanup(aged: set<TaskKey>, keys: seq<TaskKey>) returns (ok: bool)
      requires forall i, j :: 0 <= i < j < |keys| ==> keys[i] != keys[j]
      modifies db`tasks, db`events
      ensures (db.Work(), ok) == CleanupStep(old(db.View()), aged, KeySet(keys))
    {
      hide CleanupAged, Sweepable, AgeForCleanup;
      var swept := KeySet(keys);
      if |aged| > MAX_SWEEP || !(forall k :: k in aged ==> CleanupAged(db.View(), k)) {
        return false;
      }
      var q := AgeForCleanup(db.Work(), aged);
      if |swept| > MAX_SWEEP || !(forall k :: k in swept ==> Sweepable(q, db.now, k)) {
        return false;
      }
      AgingIsLocal(db.Work(), aged);
      db.tasks, db.events := q.tasks, q.events;
      for i := 0 to |keys|
        invariant db.Work() == SweepTasks(q, KeySet(keys[..i]))
      {
        var key := keys[i];
        SweepOneMore(q, keys, i);
        db.events := db.events - {key};
        if key in db.tasks && key in db.applications {
          db.tasks := db.tasks[key := db.tasks[key].(scrubbed := true)];
        }
        if key !in db.applications {
          db.tasks := db.tasks - {key};
        }
      }
      assert keys[..|keys|] == keys;
      return true;
    }
  }

  lemma AgingIsLocal(q: Queue, aged: set<TaskKey>)
    ensures AgeForCleanup(q, aged).applications == q.applications && AgeForCleanup(q, aged).nextBorn == q.nextBorn
  {
  }

  /** Sweeping one more key of the list, one statement at a time. */
  lemma SweepOneMore(q: Queue, keys: seq<TaskKey>, i: int)
    requires 0 <= i < |keys|
    ensures var key, before := keys[i], SweepTasks(q, KeySet(keys[..i]));
      var scrubbed := if key in before.tasks && key in q.applications
          then before.tasks[key := before.tasks[key].(scrubbed := true)] else before.tasks;
      SweepTasks(q, KeySet(keys[..i + 1])) ==
        q.(tasks := if key in q.applications then scrubbed else scrubbed - {key}, events := before.events - {key})
  {
    assert KeySet(keys[..i + 1]) == KeySet(keys[..i]) + {keys[i]};
  }

  lemma ItemsSpeakForAttempts(db: Db, t: TaskKey, order: CaptureKey -> nat, keys: seq<CaptureKey>,
      items: seq<DispatchRecovery>)
    requires Lists(db, t, order, keys, items)
    ensures AllSafe(db, t) <==> forall i :: 0 <= i < |items| ==> items[i].safeToRetry || items[i].replayable
    ensures AnyReplayable(db, t) <==> exists i :: 0 <= i < |items| && items[i].replayable
  {
    hide Replayable, SafeToRetry, InOrder;
    forall f | f in TaskAttempts(db, t)
        ensures exists i :: 0 <= i < |items| && items[i] == RecoveryOf(db, db.fences.attempts[f]) {
      assert f in Members(keys);
      var i :| 0 <= i < |keys| && keys[i] == f;
      assert items[i] == RecoveryOf(db, db.fences.attempts[f]);
    }
    forall i | 0 <= i < |items|
        ensures exists f :: f in TaskAttempts(db, t) && items[i] == RecoveryOf(db, db.fences.attempts[f]) {
      assert keys[i] in Members(keys);
    }
  }

  // -------------------------------------------------------------------- orders of queries

  lemma EligibleIsThere(cfg: Config, db: Db, k: TaskKey)
    requires Eligible(cfg, db, k)
    ensures k in db.queue.tasks
  {
  }

  lemma NoLaterTotal(a: set<Time>, b: set<Time>)
    ensures NoLaterThan(a, b) || NoLaterThan(b, a)
  {
    if !NoLaterThan(a, b) {
      var x :| x in a && forall y :: y in b ==> y < x;
    }
  }

  lemma NoLaterTransitive(a: set<Time>, b: set<Time>, c: set<Time>)
    requires NoLaterThan(a, b) && NoLaterThan(b, c)
    ensures NoLaterThan(a, c)
  {
    forall x | x in a ensures exists z :: z in c && x <= z {
      var y :| y in b && x <= y;
      var z :| z in c && y <= z;
    }
  }

  lemma PrecedesTotal(db: Db, order: TaskKey -> nat, a: TaskKey, b: TaskKey)
    requires a in db.queue.tasks && b in db.queue.tasks
    ensures Precedes(db, order, a, b) || Precedes(db, order, b, a)
  {
    hide RecentlyDone, NoLaterThan;
    NoLaterTotal(RecentlyDone(db, a), RecentlyDone(db, b));
  }

  lemma PrecedesTransitive(db: Db, order: TaskKey -> nat, a: TaskKey, b: TaskKey, c: TaskKey)
    requires a in db.queue.tasks && b in db.queue.tasks && c in db.queue.tasks
    requires Precedes(db, order, a, b) && Precedes(db, order, b, c)
    ensures Precedes(db, order, a, c)
  {
    hide RecentlyDone, NoLaterThan;
    var x, y, z := RecentlyDone(db, a), RecentlyDone(db, b), RecentlyDone(db, c);
    if NoLaterThan(x, y) && NoLaterThan(y, z) { NoLaterTransitive(x, y, z); }
    if NoLaterThan(y, z) && NoLaterThan(z, x) { NoLaterTransitive(y, z, x); }
    if NoLaterThan(z, x) && NoLaterThan(x, y) { NoLaterTransitive(z, x, y); }
  }

  /** The items describe the attempts under the keys, one by one. */
  ghost predicate Described(db: Db, keys: seq<CaptureKey>, items: seq<DispatchRecovery>) {
    && |keys| == |items|
    && forall i :: 0 <= i < |keys| ==>
        keys[i] in db.fences.attempts && items[i] == RecoveryOf(db, db.fences.attempts[keys[i]])
  }

  ghost predicate InOrder(order: CaptureKey -> nat, keys: seq<CaptureKey>) {
    forall i, j :: 0 <= i < j < |keys| ==> keys[i] != keys[j] && order(keys[i]) <= order(keys[j])
  }

  /** The items are the attempts of the task, each once, in the order of their keys. */
  ghost predicate Lists(db: Db, t: TaskKey, order: CaptureKey -> nat, keys: seq<CaptureKey>,
      items: seq<DispatchRecovery>) {
    Members(keys) == TaskAttempts(db, t) && Described(db, keys, items) && InOrder(order, keys)
  }

  lemma DescribeOneMore(db: Db, order: CaptureKey -> nat, keys: seq<CaptureKey>, items: seq<DispatchRecovery>,
      f: CaptureKey)
    requires Described(db, keys, items) && InOrder(order, keys) && f in db.fences.attempts && f !in Members(keys)
    requires forall k :: k in Members(keys) ==> order(k) <= order(f)
    ensures Described(db, keys + [f], items + [RecoveryOf(db, db.fences.attempts[f])]) && InOrder(order, keys + [f])
    ensures Members(keys + [f]) == Members(keys) + {f}
  {
    hide RecoveryOf;
    forall i | 0 <= i < |keys| ensures keys[i] != f && order(keys[i]) <= order(f) { assert keys[i] in Members(keys); }
  }

  lemma NothingListed(db: Db, order: CaptureKey -> nat)
    ensures Described(db, [], []) && InOrder(order, []) && Members<CaptureKey>([]) == {}
  {
  }
}
