/**
Recovery identifies the lease it judged by task key and generation only.  Cleanup can
delete the row in between and a new row starts again at generation zero, so a verdict
on the old lifetime can be applied to the new one.  This run shows it: a task is
deferred as recoverable while a request dispatched for it has no known outcome.
*/
module RecoveryGap {
  import opened Options
  import opened Ledger
  import opened DispatchSpec
  import opened WorkSpec
  import opened LedgerRuns
  import opened RecoverySafety

  const CFG: Config := RawConfig(Calendar(d => 0, d => 0), true, true, true, false, 24, 1, HOUR, 60_000_000)
  const HASH: InfoHash := 7
  const KEY: TaskKey := TaskKey(ContentFilter, HASH, 0, 0, 0)
  const CAPTURE: CaptureKey := CaptureKey(Identity(ContentFilterTask, NoSource, NaturalCapture, HASH, 0), 0)
  const DRAFT: Draft := Draft(KEY, 0, true, false, 0, 0, 0)
  const CASE: CaseFence := CaseFence(KEY, "w", 1, 0, 0, Passes)
  const REQUEST: DispatchRequest :=
      DispatchRequest(CAPTURE, None, ContentFilterTask, NoSource, HASH, true, Some(CASE), 0)
  const LEASE: DispatchLease := DispatchLease(CAPTURE, Some(CAPTURE), "t", 1, Some(CASE))

  /** A row of KEY, first queued and then leased for a minute. */
  function Row(born: nat, at: Time, leased: bool): WorkTask {
    var t := WorkTask(0, false, 0, 0, 0, Queued, NoReason, at, at, at + HOUR, None, 0, None, None, born);
    if leased then LeaseTask(t, "w", at + 60_000_000) else t
  }

  function Tables(now: Time, captures: map<CaptureKey, Capture>, fences: Fences, budgets: map<BudgetKey, Budget>,
      tasks: map<TaskKey, WorkTask>, born: nat): Db {
    Db(now, Evidence({HASH}, captures, map[]), fences, budgets,
        Queue(tasks, if tasks == map[] then {} else {KEY}, {}, born))
  }

  const NO_FENCES: Fences := Fences(map[], map[], map[])

  function Reached(db: Db, recoveries: map<nat, Recovery>): World {
    World(db, recoveries, [], {}, [])
  }

  const HELD_OPEN: Recovery := Recovery(KEY, 1, 0, HOUR, Judged(Safe(false)))

  // The first lifetime: queued, leased, expired, selected and judged safe.

  const W1: World := Reached(Tables(0, map[], NO_FENCES, map[], map[], 0), map[])
  const W2: World := Reached(Tables(0, map[], NO_FENCES, map[], map[KEY := Row(0, 0, false)], 1), map[])
  const W3: World := Reached(Tables(0, map[], NO_FENCES, map[], map[KEY := Row(0, 0, true)], 1), map[])
  const W4: World := Reached(Tables(HOUR, map[], NO_FENCES, map[], map[KEY := Row(0, 0, true)], 1), map[])
  const W7: World := Reached(W4.db, map[0 := HELD_OPEN])

  lemma QueueIsEmpty(db: Db)
    requires db.queue.tasks == map[]
    ensures PendingKeys(db, ContentFilter) == {} && BucketKeys(db, ContentFilter, 0) == {}
      && !FamilyPending(db, ContentFilter, 0)
  {
  }

  lemma Queue1()
    ensures Step(CFG, START, OnEvidence(SetPublic(HASH, true))) == W1
    ensures Step(CFG, W1, OnQueue(Enqueue(DRAFT, true))) == W2
  {
    QueueIsEmpty(W1.db);
  }

  /** Whatever the clock, a row just queued is claimed as the leased row. */
  lemma RowIsClaimed(db: Db, born: nat)
    requires db.queue == Queue(map[KEY := Row(born, db.now, false)], {KEY}, {}, born + 1)
      && HASH in db.evidence.publicHashes
    ensures ClaimStep(CFG, db, "w", {}, Some(KEY)).0 == db.queue.(tasks := map[KEY := Row(born, db.now, true)])
  {
    assert AgeTasks(db.queue, {}) == db.queue;
  }

  lemma Lease1()
    ensures Step(CFG, W2, OnQueue(Claim("w", {}, Some(KEY)))) == W3
    ensures Step(CFG, W3, Tick(HOUR)) == W4
  {
    hide ClaimStep;
    assert KEY in W2.db.queue.tasks && KEY in W3.db.queue.tasks;
    RowIsClaimed(W2.db, 0);
  }

  lemma Judge1(selected: World, rebound: World)
    requires selected == Reached(W4.db, map[0 := HELD_OPEN.(stage := Selected)])
    requires rebound == Reached(W4.db, map[0 := HELD_OPEN.(stage := Reconciled)])
    ensures Step(CFG, W4, OnRecovery(Select(0, KEY))) == selected
    ensures Step(CFG, selected, OnRecovery(Rebind(0))) == rebound
    ensures Step(CFG, rebound, OnRecovery(Judge(0))) == W7
  {
    assert TaskAttempts(W4.db, KEY) == {};
    assert ReconcileStep(W4.db, KEY).fences.attempts == map[];
  }

  // Cleanup removes the row, and the second lifetime reaches the same generation.

  const KEPT: map<CaptureKey, Capture> := map[CAPTURE := Capture(HOUR, 3 * HOUR)]

  function SecondLease(now: Time, captures: map<CaptureKey, Capture>, fences: Fences, budgets: map<BudgetKey,
      Budget>): Db {
    Tables(now, captures, fences, budgets, map[KEY := Row(1, HOUR, true)], 2)
  }

  function Attempted(state: AttemptState, reserved: Option<Reservation>, intentAt: Option<Time>): Attempt {
    Attempt(CAPTURE.identity, CAPTURE, false, Some(KEY), state, Some("t"), 1, Some(HOUR + 60_000_000), None, reserved,
        None, None, Audit(NoReason, intentAt, None))
  }

  function Fenced(row: Attempt): Fences {
    Fences(map[CAPTURE := row], map[CAPTURE.identity := CAPTURE], map[CAPTURE := CAPTURE])
  }

  const PREPARED: Fences := Fenced(Attempted(Prepared, None, None))
  const ADMITTED: Fences := Fenced(Attempted(Admitted, Some(Reservation(ContentFilter, 0)), None))
  const SENT: Fences := Fenced(Attempted(Intent, Some(Reservation(ContentFilter, 0)), Some(HOUR)))
  const PAID: map<BudgetKey, Budget> := map[BudgetKey(ContentFilter, 0) := Budget(0, 1, 1)]

  const W8: World := Reached(Tables(HOUR, map[], NO_FENCES, map[], map[], 1), W7.recoveries)
  const W9: World := Reached(Tables(HOUR, map[], NO_FENCES, map[], map[KEY := Row(1, HOUR, false)], 2), W7.recoveries)
  const W10: World := Reached(SecondLease(HOUR, map[], NO_FENCES, map[]), W7.recoveries)
  const W11: World := Reached(SecondLease(HOUR, KEPT, NO_FENCES, map[]), W7.recoveries)
  const W12: World := Reached(SecondLease(HOUR, KEPT, PREPARED, map[]), W7.recoveries)
  const W13: World := World(SecondLease(HOUR, KEPT, ADMITTED, PAID), W7.recoveries, [],
      {Charge(ContentFilter, CAPTURE, 0)}, [])
  const W14: World :=
    World(SecondLease(HOUR, KEPT, SENT, PAID), W7.recoveries,
          [Dispatch(CAPTURE, CAPTURE, "t", 1, Some(Reservation(ContentFilter, 0)), HOUR)], W13.charges, [])
  const W15: World := W14.(db := SecondLease(HOUR + 60_000_000, KEPT, SENT, PAID))

  lemma Cleanup2()
    ensures Step(CFG, W7, OnQueue(Cleanup({KEY}, {KEY}))) == W8
  {
    var q := AgeForCleanup(W7.db.queue, {KEY});
    assert CleanupAged(W7.db, KEY) && Sweepable(q, W7.db.now, KEY);
    assert SweepTasks(q, {KEY}).tasks == map[] && SweepTasks(q, {KEY}).events == {};
  }

  lemma Queue2()
    ensures Step(CFG, W8, OnQueue(Enqueue(DRAFT, true))) == W9
  {
    QueueIsEmpty(W8.db);
  }

  lemma Lease2()
    ensures Step(CFG, W9, OnQueue(Claim("w", {}, Some(KEY)))) == W10
  {
    hide ClaimStep;
    assert KEY in W9.db.queue.tasks && KEY in W10.db.queue.tasks;
    RowIsClaimed(W9.db, 1);
  }

  lemma Capture2()
    ensures Step(CFG, W10, OnEvidence(RetainCapture(CAPTURE, 3 * HOUR))) == W11
  {
  }

  lemma Grant2()
    ensures PrepareStep(W11.db, REQUEST, "t").0 == W12.db
  {
    assert Resolve(W11.db, CAPTURE) == Some(Fence(CAPTURE, false));
    assert CaseHeld(W11.db, CASE);
    assert PrepareStep(W11.db, REQUEST, "t").0.fences == PREPARED;
  }

  lemma Prepare2()
    ensures Step(CFG, W11, OnFence(Prepare(REQUEST, "t"))) == W12
  {
    hide PrepareStep;
    Grant2();
  }

  lemma Charge2()
    ensures ReserveStep(CFG.calendar, W12.db, LEASE, ContentFilter, 1, 1) == (W13.db, Reserved(true))
  {
    assert CaseHeld(W12.db, CASE);
    assert ADMITTED.attempts == PREPARED.attempts[CAPTURE := AdmitRow(PREPARED.attempts[CAPTURE], ContentFilter, 0)];
    assert PAID == map[][BudgetKey(ContentFilter, 0) := Budget(0, 1, 1)];
  }

  lemma Reserve2()
    ensures Step(CFG, W12, OnFence(Reserve(LEASE, ContentFilter, 1, 1))) == W13
  {
    hide ReserveStep;
    Charge2();
  }

  lemma Begin2()
    ensures BeginStep(W13.db, LEASE) == (W14.db, None)
  {
    assert CaseHeld(W13.db, CASE);
    assert SENT.attempts == ADMITTED.attempts[CAPTURE := IntentRow(ADMITTED.attempts[CAPTURE], HOUR)];
  }

  lemma Dispatch2()
    ensures Step(CFG, W13, OnFence(Begin(LEASE))) == W14
    ensures Step(CFG, W14, Tick(60_000_000)) == W15
  {
    hide BeginStep;
    Begin2();
  }

  lemma Extend(ops: seq<Op>, w: World, op: Op, v: World)
    requires Run(CFG, START, ops) == w && Step(CFG, w, op) == v
    ensures Run(CFG, START, ops + [op]) == v
  {
    hide Step;
    RunSplit(CFG, START, ops, [op]);
    assert Run(CFG, v, []) == v;
    assert [op][1..] == [];
  }

  /** Without the condition on the lifetime the claim fails: in this run the update
      defers a task for which a request was sent and nothing is known of it. It comes
      exactly one lease duration after the selection, the earliest moment at which
      that can happen. */
  lemma DeferredAcrossLifetimes() returns (ops: seq<Op>)
    ensures var w := Run(CFG, START, ops);
      && WouldDefer(w, 0)
      && w.db.queue.tasks[w.recoveries[0].task].born != w.recoveries[0].born
      && w.db.now == w.recoveries[0].selectedAt + CFG.leaseDuration
      && !AllSettled(w.db.fences, w.recoveries[0].task)
  {
    ops := [];
    hide Run, Step;
    assert Run(CFG, START, []) == START by { RunNothing(); }
    Queue1();
    Extend(ops, START, OnEvidence(SetPublic(HASH, true)), W1);
    ops := ops + [OnEvidence(SetPublic(HASH, true))];
    Extend(ops, W1, OnQueue(Enqueue(DRAFT, true)), W2);
    ops := ops + [OnQueue(Enqueue(DRAFT, true))];
    Lease1();
    Extend(ops, W2, OnQueue(Claim("w", {}, Some(KEY))), W3);
    ops := ops + [OnQueue(Claim("w", {}, Some(KEY)))];
    Extend(ops, W3, Tick(HOUR), W4);
    ops := ops + [Tick(HOUR)];
    var selected, rebound := Reached(W4.db, map[0 := HELD_OPEN.(stage := Selected)]),
        Reached(W4.db, map[0 := HELD_OPEN.(stage := Reconciled)]);
    Judge1(selected, rebound);
    Extend(ops, W4, OnRecovery(Select(0, KEY)), selected);
    ops := ops + [OnRecovery(Select(0, KEY))];
    Extend(ops, selected, OnRecovery(Rebind(0)), rebound);
    ops := ops + [OnRecovery(Rebind(0))];
    Extend(ops, rebound, OnRecovery(Judge(0)), W7);
    ops := SecondLifetime(ops + [OnRecovery(Judge(0))]);
    assert CAPTURE in SENT.attempts && SENT.attempts[CAPTURE].taskKey == Some(KEY) && !Settled(SENT.attempts[CAPTURE]);
  }

  lemma RunNothing()
    ensures Run(CFG, START, []) == START
  {
  }

  lemma SecondLifetime(first: seq<Op>) returns (ops: seq<Op>)
    requires Run(CFG, START, first) == W7
    ensures Run(CFG, START, ops) == W15
  {
    hide Run, Step;
    ops := first;
    Cleanup2();
    Extend(ops, W7, OnQueue(Cleanup({KEY}, {KEY})), W8);
    ops := ops + [OnQueue(Cleanup({KEY}, {KEY}))];
    Queue2();
    Extend(ops, W8, OnQueue(Enqueue(DRAFT, true)), W9);
    ops := ops + [OnQueue(Enqueue(DRAFT, true))];
    Lease2();
    Capture2();
    Extend(ops, W9, OnQueue(Claim("w", {}, Some(KEY))), W10);
    ops := ops + [OnQueue(Claim("w", {}, Some(KEY)))];
    Extend(ops, W10, OnEvidence(RetainCapture(CAPTURE, 3 * HOUR)), W11);
    ops := ops + [OnEvidence(RetainCapture(CAPTURE, 3 * HOUR))];
    Prepare2();
    Extend(ops, W11, OnFence(Prepare(REQUEST, "t")), W12);
    ops := ops + [OnFence(Prepare(REQUEST, "t"))];
    Reserve2();
    Extend(ops, W12, OnFence(Reserve(LEASE, ContentFilter, 1, 1)), W13);
    ops := ops + [OnFence(Reserve(LEASE, ContentFilter, 1, 1))];
    Dispatch2();
    Extend(ops, W13, OnFence(Begin(LEASE)), W14);
    ops := ops + [OnFence(Begin(LEASE))];
    Extend(ops, W14, Tick(60_000_000), W15);
    ops := ops + [Tick(60_000_000)];
  }
}
