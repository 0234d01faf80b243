/**
The request budget over whole runs: the monthly counter is exactly the number of
distinct (fence, UTC day) reservations of that month, and no day or month ever sees
more dispatches than its limit, however often Reserve is retried.
*/
module BudgetSafety {
  import opened Options
  import opened Ledger
  import opened DispatchSpec
  import opened WorkSpec
  import opened LedgerRuns
  import opened FenceSafety
  import opened FiniteSets

  function ChargesOn(charges: set<Charge>, scope: Scope, day: int): set<Charge> {
    set c | c in charges && c.scope == scope && c.day == day
  }

  function ChargesIn(cal: Calendar, charges: set<Charge>, scope: Scope, month: int): set<Charge> {
    set c | c in charges && c.scope == scope && cal.monthOf(c.day) == month
  }

  /** A budget row counts the reservations of its month and of its latest day. */
  ghost predicate RowExact(cal: Calendar, charges: set<Charge>, key: BudgetKey, b: Budget, today: int) {
    && cal.monthOf(b.day) == key.month && b.day <= today
    && b.monthlyCalls == |ChargesIn(cal, charges, key.scope, key.month)|
    && b.dailyCalls == |ChargesOn(charges, key.scope, b.day)|
  }

  /** A reservation has a budget row that has not moved past its day backwards. */
  ghost predicate Counted(cal: Calendar, budgets: map<BudgetKey, Budget>, c: Charge) {
    var key := BudgetKey(c.scope, cal.monthOf(c.day));
    key in budgets && c.day <= budgets[key].day
  }

  ghost predicate BudgetsExact(cal: Calendar, w: World) {
    && (forall key :: key in w.db.budgets ==> RowExact(cal, w.charges, key, w.db.budgets[key], Today(w.db)))
    && (forall c :: c in w.charges ==> Counted(cal, w.db.budgets, c))
  }

  /** The fence of a reservation still shows a reservation of that day or a later one. */
  ghost predicate Shown(x: Fences, c: Charge) {
    && c.fence in x.attempts && x.attempts[c.fence].reserved.Some?
    && c.day <= x.attempts[c.fence].reserved.value.day
    && DispatchScope(c.fence.identity.task) == Some(c.scope)
  }

  /** What a fence shows as reserved was charged, no later than today. */
  ghost predicate Paid(charges: set<Charge>, today: int, f: CaptureKey, row: Attempt) {
    row.reserved.Some? ==>
      && Charge(row.reserved.value.scope, f, row.reserved.value.day) in charges
      && row.reserved.value.day <= today
  }

  ghost predicate ReservationsPaid(w: World) {
    && (forall c :: c in w.charges ==> Shown(w.db.fences, c))
    && (forall f :: f in w.db.fences.attempts ==> Paid(w.charges, Today(w.db), f, w.db.fences.attempts[f]))
  }

  /** Every dispatch used a reservation of its own fence made on its own day. */
  ghost predicate DispatchesPaid(w: World) {
    forall d :: d in w.dispatches ==>
      && d.reserved.Some? && d.reserved.value.day == d.at / DAY
      && Charge(d.reserved.value.scope, d.fence, d.reserved.value.day) in w.charges
  }

  ghost predicate BudgetSafe(cal: Calendar, w: World) {
    FencesKeyed(w.db.fences) && BudgetsExact(cal, w) && ReservationsPaid(w) && DispatchesPaid(w)
  }

  // ------------------------------------------------ steps that do not touch reservations

  lemma DaysPass(now: Time, elapsed: nat)
    ensures now / DAY <= (now + elapsed) / DAY
  {
  }

  ghost predicate ReservationsUntouched(x: Fences, y: Fences) {
    && (forall f :: f in x.attempts ==> f in y.attempts)
    && (forall f :: f in y.attempts ==>
        y.attempts[f].reserved == if f in x.attempts then x.attempts[f].reserved else None)
  }

  lemma UntouchedStaysPaid(w: World, v: World)
    requires ReservationsPaid(w) && ReservationsUntouched(w.db.fences, v.db.fences)
    requires v.charges == w.charges && Today(w.db) <= Today(v.db)
    ensures ReservationsPaid(v)
  {
    hide Today;
    forall c | c in v.charges ensures Shown(v.db.fences, c) {
      assert Shown(w.db.fences, c);
    }
    forall f | f in v.db.fences.attempts ensures Paid(v.charges, Today(v.db), f, v.db.fences.attempts[f]) {
      if f in w.db.fences.attempts { assert Paid(w.charges, Today(w.db), f, w.db.fences.attempts[f]); }
    }
  }

  lemma DecideLeavesReservation(row: Attempt, isNew: bool, legacy: bool, retained: Option<Response>,
      req: DispatchRequest,
                                token: string, fence: CaptureKey, now: Time)
    ensures Decide(row, isNew, legacy, retained, req, token, fence, now).0.reserved == row.reserved
  {
  }

  lemma PrepareLeavesReservations(db: Db, req: DispatchRequest, token: string)
    requires FencesKeyed(db.fences)
    ensures ReservationsUntouched(db.fences, PrepareStep(db, req, token).0.fences)
    ensures PrepareStep(db, req, token).0.budgets == db.budgets
    ensures Today(PrepareStep(db, req, token).0) == Today(db)
  {
    hide AdmitRequest, Resolve, CheckCaseFence, Foreign, Linked, Retained, Decide, FencesKeyed;
    if Commits(PrepareStep(db, req, token).1) {
      ResolveKeyed(db, req.capture);
      var Fence(fence, legacy) := Resolve(db, req.capture).value;
      var row := PrepareRow(db, req, fence, legacy);
      DecideLeavesReservation(row, fence !in db.fences.attempts, legacy || row.legacy, Retained(db, row.active), req,
          token, fence, db.now);
    }
  }

  lemma FenceNextLeavesReservations(cfg: Config, db: Db, op: FenceOp)
    requires FencesKeyed(db.fences) && !op.Reserve?
    ensures var db' := FenceNext(cfg, db, op);
      ReservationsUntouched(db.fences, db'.fences) && db'.budgets == db.budgets && Today(db') == Today(db)
  {
    hide PrepareStep, FencesKeyed, CheckCaseFence, MayReconcile, MayDispatch;
    match op
    case Prepare(req, token) => PrepareLeavesReservations(db, req, token);
    case Begin(_) =>
    case DeferDispatch(_, _, _) =>
    case Observe(_, _) =>
    case Reconcile(_) =>
  }

  // ------------------------------------------------------------------- Reserve

  /** The reservation that a Reserve of this lease would charge. */
  function ChargeOf(db: Db, lease: DispatchLease, scope: Scope): Charge {
    Charge(scope, lease.FenceKey(), Today(db))
  }

  /** Reserve rewrites its own row and, when it charges, one budget row. */
  lemma ReserveShape(cal: Calendar, db: Db, lease: DispatchLease, scope: Scope, daily: int, monthly: int)
    ensures var (db', outcome) := ReserveStep(cal, db, lease, scope, daily, monthly);
      var f, key := lease.FenceKey(), BudgetKey(scope, cal.monthOf(Today(db)));
      && db'.now == db.now
      && (!outcome.Reserved? ==> ReservationsUntouched(db.fences, db'.fences))
      && (outcome != Reserved(true) ==> db'.budgets == db.budgets)
      && (outcome == Reserved(true) ==>
            && ChargeBudget(db.budgets, key, Today(db), daily, monthly).Some?
            && db'.budgets == db.budgets[key := ChargeBudget(db.budgets, key, Today(db), daily, monthly).value])
      && (outcome.Reserved? ==>
            && f in db.fences.attempts && DispatchScope(db.fences.attempts[f].semantic.task) == Some(scope)
            && db'.fences.attempts == db.fences.attempts[f := AdmitRow(db.fences.attempts[f], scope, Today(db))]
            && outcome.charged == !AlreadyReserved(db.fences.attempts[f], scope, Today(db)))
  {
    hide ChargeBudget, PublicAdmission, CheckCaseFence;
  }

  /** A charge is always new: a fence that already paid today is not charged again. */
  lemma ChargeIsNew(cal: Calendar, w: World, lease: DispatchLease, scope: Scope, daily: int, monthly: int)
    requires FencesKeyed(w.db.fences) && ReservationsPaid(w)
    requires ReserveStep(cal, w.db, lease, scope, daily, monthly).1 == Reserved(true)
    ensures ChargeOf(w.db, lease, scope) !in w.charges
  {
    hide ReserveStep, AliasesKeyed, Today;
    ReserveShape(cal, w.db, lease, scope, daily, monthly);
    ReservedRowPaid(w, lease.FenceKey());
    assert ChargeOf(w.db, lease, scope) in w.charges ==> Shown(w.db.fences, ChargeOf(w.db, lease, scope));
  }

  /** One new charge moves exactly the counter of its own month. */
  lemma MonthMoves(cal: Calendar, charges: set<Charge>, c: Charge, scope: Scope, month: int)
    requires c !in charges
    ensures |ChargesIn(cal, charges + {c}, scope, month)| ==
      |ChargesIn(cal, charges, scope, month)| + if c.scope == scope && cal.monthOf(c.day) == month then 1 else 0
  {
    var before, after := ChargesIn(cal, charges, scope, month), ChargesIn(cal, charges + {c}, scope, month);
    if c.scope == scope && cal.monthOf(c.day) == month {
      assert after == before + {c};
    } else {
      assert after == before;
    }
  }

  /** One new charge moves exactly the counter of its own day. */
  lemma DayMoves(charges: set<Charge>, c: Charge, scope: Scope, day: int)
    requires c !in charges
    ensures |ChargesOn(charges + {c}, scope, day)| == |ChargesOn(charges, scope, day)| + if c.scope == scope
      && c.day == day then 1 else 0
  {
    var before, after := ChargesOn(charges, scope, day), ChargesOn(charges + {c}, scope, day);
    if c.scope == scope && c.day == day {
      assert after == before + {c};
    } else {
      assert after == before;
    }
  }

  /** A day later than the one its budget row shows has no reservation yet. */
  lemma NothingOnANewDay(cal: Calendar, w: World, scope: Scope, day: int)
    requires BudgetsExact(cal, w)
    requires var key := BudgetKey(scope, cal.monthOf(day)); key in w.db.budgets ==> w.db.budgets[key].day < day
    ensures ChargesOn(w.charges, scope, day) == {}
  {
    forall c | c in w.charges && c.scope == scope ensures c.day != day {
      assert Counted(cal, w.db.budgets, c);
    }
  }

  lemma NothingInANewMonth(cal: Calendar, w: World, scope: Scope, month: int)
    requires BudgetsExact(cal, w) && BudgetKey(scope, month) !in w.db.budgets
    ensures ChargesIn(cal, w.charges, scope, month) == {}
  {
    forall c | c in w.charges && c.scope == scope ensures cal.monthOf(c.day) != month {
      assert Counted(cal, w.db.budgets, c);
    }
  }

  /** The charged budget row counts the new reservation. */
  lemma ChargedRowExact(cal: Calendar, w: World, c: Charge, daily: int, monthly: int)
    requires BudgetsExact(cal, w) && c !in w.charges && c.day == Today(w.db)
    requires var key := BudgetKey(c.scope, cal.monthOf(c.day));
      ChargeBudget(w.db.budgets, key, c.day, daily, monthly).Some?
    ensures var key := BudgetKey(c.scope, cal.monthOf(c.day));
      var b := ChargeBudget(w.db.budgets, key, c.day, daily, monthly).value;
      RowExact(cal, w.charges + {c}, key, b, Today(w.db)) && b.day == c.day && b.dailyCalls <= daily
          && b.monthlyCalls <= monthly
  {
    hide Today, Counted;
    var key := BudgetKey(c.scope, cal.monthOf(c.day));
    MonthMoves(cal, w.charges, c, c.scope, key.month);
    DayMoves(w.charges, c, c.scope, c.day);
    if key in w.db.budgets {
      assert RowExact(cal, w.charges, key, w.db.budgets[key], Today(w.db));
      if w.db.budgets[key].day != c.day { NothingOnANewDay(cal, w, c.scope, c.day); }
    } else {
      NothingInANewMonth(cal, w, c.scope, key.month);
      NothingOnANewDay(cal, w, c.scope, c.day);
    }
  }

  lemma ChargeKeepsBudgets(cal: Calendar, w: World, v: World, c: Charge, daily: int, monthly: int)
    requires BudgetsExact(cal, w) && c !in w.charges && c.day == Today(w.db) == Today(v.db)
    requires var key := BudgetKey(c.scope, cal.monthOf(c.day));
      ChargeBudget(w.db.budgets, key, c.day, daily, monthly).Some?
    requires var key := BudgetKey(c.scope, cal.monthOf(c.day));
      v.db.budgets == w.db.budgets[key := ChargeBudget(w.db.budgets, key, c.day, daily, monthly).value]
    requires v.charges == w.charges + {c}
    ensures BudgetsExact(cal, v)
  {
    hide Today, ChargeBudget;
    ChargedRowExact(cal, w, c, daily, monthly);
    var charged := BudgetKey(c.scope, cal.monthOf(c.day));
    forall key | key in v.db.budgets && key != charged
        ensures RowExact(cal, v.charges, key, v.db.budgets[key], Today(v.db)) {
      assert RowExact(cal, w.charges, key, w.db.budgets[key], Today(w.db));
      MonthMoves(cal, w.charges, c, key.scope, key.month);
      DayMoves(w.charges, c, key.scope, w.db.budgets[key].day);
    }
    forall e | e in v.charges ensures Counted(cal, v.db.budgets, e) {
      if e != c {
        assert Counted(cal, w.db.budgets, e);
        if BudgetKey(e.scope, cal.monthOf(e.day)) == charged {
          assert RowExact(cal, w.charges, charged, w.db.budgets[charged], Today(w.db));
        }
      }
    }
  }

  /** A fence that is charged, or was charged, for today shows a paid reservation. */
  lemma AdmittedRowPaid(w: World, v: World, f: CaptureKey, scope: Scope, today: int)
    requires ReservationsPaid(w) && Today(w.db) == Today(v.db) == today && f in w.db.fences.attempts
    requires DispatchScope(f.identity.task) == Some(scope)
    requires v.db.fences.attempts == w.db.fences.attempts[f := AdmitRow(w.db.fences.attempts[f], scope, today)]
    requires v.charges == w.charges || v.charges == w.charges + {Charge(scope, f, today)}
    requires Charge(scope, f, today) in v.charges
    ensures ReservationsPaid(v)
  {
    hide Today;
    assert Paid(w.charges, today, f, w.db.fences.attempts[f]);
    forall c | c in v.charges ensures Shown(v.db.fences, c) {
      if c in w.charges { assert Shown(w.db.fences, c); }
    }
    forall g | g in v.db.fences.attempts ensures Paid(v.charges, today, g, v.db.fences.attempts[g]) {
      if g in w.db.fences.attempts { assert Paid(w.charges, today, g, w.db.fences.attempts[g]); }
    }
  }

  /** Reserve pays for the day it writes on its fence, and for nothing else. */
  lemma ReservePays(cfg: Config, w: World, lease: DispatchLease, scope: Scope, daily: int, monthly: int)
    requires FencesKeyed(w.db.fences) && ReservationsPaid(w)
    ensures ReservationsPaid(Step(cfg, w, OnFence(Reserve(lease, scope, daily, monthly))))
  {
    hide ReserveStep, ChargeBudget, AliasesKeyed, ReservationsPaid, ReservationsUntouched, AdmitRow;
    ReserveShape(cfg.calendar, w.db, lease, scope, daily, monthly);
    var v := Step(cfg, w, OnFence(Reserve(lease, scope, daily, monthly)));
    var f, outcome := lease.FenceKey(), ReserveStep(cfg.calendar, w.db, lease, scope, daily, monthly).1;
    if outcome.Reserved? {
      if !outcome.charged { ReservedRowPaid(w, f); }
      AdmittedRowPaid(w, v, f, scope, Today(w.db));
    } else {
      UntouchedStaysPaid(w, v);
    }
  }

  lemma ReservedRowPaid(w: World, f: CaptureKey)
    requires ReservationsPaid(w) && f in w.db.fences.attempts
    ensures Paid(w.charges, Today(w.db), f, w.db.fences.attempts[f])
  {
  }

  lemma ReserveBudgetsExact(cfg: Config, w: World, lease: DispatchLease, scope: Scope, daily: int, monthly: int)
    requires FencesKeyed(w.db.fences) && ReservationsPaid(w) && BudgetsExact(cfg.calendar, w)
    ensures BudgetsExact(cfg.calendar, Step(cfg, w, OnFence(Reserve(lease, scope, daily, monthly))))
  {
    hide ReserveStep, ChargeBudget, ReservationsPaid, ReservationsUntouched, FencesKeyed;
    ReserveShape(cfg.calendar, w.db, lease, scope, daily, monthly);
    var v := Step(cfg, w, OnFence(Reserve(lease, scope, daily, monthly)));
    if ReserveStep(cfg.calendar, w.db, lease, scope, daily, monthly).1 == Reserved(true) {
      ChargeIsNew(cfg.calendar, w, lease, scope, daily, monthly);
      ChargeKeepsBudgets(cfg.calendar, w, v, ChargeOf(w.db, lease, scope), daily, monthly);
    }
  }

  // ------------------------------------------------------------------ every step

  /** Budgets and charges are as before and the day has not gone back. */
  lemma SameBudgetsExact(cal: Calendar, w: World, v: World)
    requires BudgetsExact(cal, w) && v.db.budgets == w.db.budgets && v.charges == w.charges
      && Today(w.db) <= Today(v.db)
    ensures BudgetsExact(cal, v)
  {
    hide Today;
    forall key | key in v.db.budgets ensures RowExact(cal, v.charges, key, v.db.budgets[key], Today(v.db)) {
      assert RowExact(cal, w.charges, key, w.db.budgets[key], Today(w.db));
    }
    forall c | c in v.charges ensures Counted(cal, v.db.budgets, c) {
      assert Counted(cal, w.db.budgets, c);
    }
  }

  lemma StepDispatchesPaid(cfg: Config, w: World, op: Op)
    requires ReservationsPaid(w) && DispatchesPaid(w)
    ensures DispatchesPaid(Step(cfg, w, op))
  {
    hide Step, CheckCaseFence, PublicAdmission;
    StepDispatches(cfg, w, op);
    StepCharges(cfg, w, op);
    if op.OnFence? && op.fence.Begin? && BeginStep(w.db, op.fence.lease).1.None? {
      ReservedRowPaid(w, op.fence.lease.FenceKey());
    }
  }

  lemma StepCharges(cfg: Config, w: World, op: Op)
    ensures w.charges <= Step(cfg, w, op).charges
    ensures !(op.OnFence? && op.fence.Reserve?) ==> Step(cfg, w, op).charges == w.charges
  {
    hide FenceNext, QueueNext, EvidenceNext, RebindNext, RecoveredQueue, NextRecoveries, NextDispatches, NextApplied,
        ReserveStep;
  }

  /** A step other than Reserve leaves budgets and reservations alone. */
  lemma StepLeavesReservations(cfg: Config, w: World, op: Op)
    requires FencesKeyed(w.db.fences) && !(op.OnFence? && op.fence.Reserve?)
    ensures var v := Step(cfg, w, op);
      ReservationsUntouched(w.db.fences, v.db.fences) && v.db.budgets == w.db.budgets && Today(w.db) <= Today(v.db)
  {
    hide FenceNext, QueueNext, EvidenceNext, ReconcileStep, RecoveredQueue, NextRecoveries, NextDispatches,
        NextCharges, NextApplied, FencesKeyed;
    match op
    case OnFence(o) => FenceNextLeavesReservations(cfg, w.db, o);
    case OnQueue(_) =>
    case OnRecovery(o) =>
      if o.Rebind? && o.id in w.recoveries {
        FenceNextLeavesReservations(cfg, w.db, Reconcile(w.recoveries[o.id].task));
        assert FenceNext(cfg, w.db, Reconcile(w.recoveries[o.id].task)) ==
            ReconcileStep(w.db, w.recoveries[o.id].task) by {
          ReconcileIsAFenceStep(cfg, w.db, w.recoveries[o.id].task);
        }
      }
    case OnEvidence(_) =>
    case Tick(elapsed) => DaysPass(w.db.now, elapsed);
  }

  lemma ReconcileIsAFenceStep(cfg: Config, db: Db, t: TaskKey)
    ensures FenceNext(cfg, db, Reconcile(t)) == ReconcileStep(db, t)
  {
  }

  lemma StepBudgetSafe(cfg: Config, w: World, op: Op)
    requires BudgetSafe(cfg.calendar, w)
    ensures BudgetSafe(cfg.calendar, Step(cfg, w, op))
  {
    hide Step, FencesKeyed, FencesKept, BudgetsExact, ReservationsPaid, DispatchesPaid, ReservationsUntouched, Today;
    StepKeepsFences(cfg, w, op);
    StepDispatchesPaid(cfg, w, op);
    if op.OnFence? && op.fence.Reserve? {
      var Reserve(lease, scope, daily, monthly) := op.fence;
      ReserveBudgetsExact(cfg, w, lease, scope, daily, monthly);
      ReservePays(cfg, w, lease, scope, daily, monthly);
    } else {
      StepLeavesReservations(cfg, w, op);
      StepCharges(cfg, w, op);
      SameBudgetsExact(cfg.calendar, w, Step(cfg, w, op));
      UntouchedStaysPaid(w, Step(cfg, w, op));
    }
  }

  lemma {:induction false} RunBudgetSafe(cfg: Config, w: World, ops: seq<Op>)
    requires BudgetSafe(cfg.calendar, w)
    ensures BudgetSafe(cfg.calendar, Run(cfg, w, ops))
    decreases |ops|
  {
    hide Step, BudgetSafe;
    if ops != [] {
      StepBudgetSafe(cfg, w, ops[0]);
      RunBudgetSafe(cfg, Step(cfg, w, ops[0]), ops[1..]);
    }
  }

  /** In every reachable state the monthly counter of a scope is exactly the number of
      distinct (fence, UTC day) reservations of that month. */
  lemma MonthlyCallsAreReservations(cfg: Config, ops: seq<Op>, scope: Scope, month: int)
    ensures var w := Run(cfg, START, ops);
      var key := BudgetKey(scope, month);
      |ChargesIn(cfg.calendar, w.charges, scope, month)| ==
          if key in w.db.budgets then w.db.budgets[key].monthlyCalls else 0
  {
    hide Run;
    assert BudgetSafe(cfg.calendar, START);
    RunBudgetSafe(cfg, START, ops);
    var w := Run(cfg, START, ops);
    if BudgetKey(scope, month) !in w.db.budgets {
      NothingInANewMonth(cfg.calendar, w, scope, month);
    }
  }

  // -------------------------------------------------------------------- limits

  /** Upper bounds on the limits that the callers of Reserve pass. */
  datatype Limits = Limits(daily: Scope -> nat, monthly: Scope -> nat)

  predicate Within(l: Limits, op: Op) {
    op.OnFence? && op.fence.Reserve? ==>
        op.fence.daily <= l.daily(op.fence.scope) && op.fence.monthly <= l.monthly(op.fence.scope)
  }

  ghost predicate Capped(cal: Calendar, l: Limits, charges: set<Charge>) {
    && (forall scope, day :: |ChargesOn(charges, scope, day)| <= l.daily(scope))
    && (forall scope, month :: |ChargesIn(cal, charges, scope, month)| <= l.monthly(scope))
  }

  lemma ChargeStaysCapped(cal: Calendar, l: Limits, w: World, c: Charge, daily: int, monthly: int)
    requires BudgetsExact(cal, w) && Capped(cal, l, w.charges) && c !in w.charges && c.day == Today(w.db)
    requires var key := BudgetKey(c.scope, cal.monthOf(c.day));
      ChargeBudget(w.db.budgets, key, c.day, daily, monthly).Some?
    requires daily <= l.daily(c.scope) && monthly <= l.monthly(c.scope)
    ensures Capped(cal, l, w.charges + {c})
  {
    hide BudgetsExact, ChargeBudget, Today;
    ChargedRowExact(cal, w, c, daily, monthly);
    forall scope, day ensures |ChargesOn(w.charges + {c}, scope, day)| <= l.daily(scope) {
      DayMoves(w.charges, c, scope, day);
    }
    forall scope, month ensures |ChargesIn(cal, w.charges + {c}, scope, month)| <= l.monthly(scope) {
      MonthMoves(cal, w.charges, c, scope, month);
    }
  }

  lemma StepCapped(cfg: Config, l: Limits, w: World, op: Op)
    requires BudgetSafe(cfg.calendar, w) && Capped(cfg.calendar, l, w.charges) && Within(l, op)
    ensures Capped(cfg.calendar, l, Step(cfg, w, op).charges)
  {
    hide FenceNext, ReserveStep, ChargeBudget, Capped, BudgetsExact, ReservationsPaid, FencesKeyed,
        ReservationsUntouched;
    if op.OnFence? && op.fence.Reserve? {
      var Reserve(lease, scope, daily, monthly) := op.fence;
      if ReserveStep(cfg.calendar, w.db, lease, scope, daily, monthly).1 == Reserved(true) {
        ReserveShape(cfg.calendar, w.db, lease, scope, daily, monthly);
        ChargeIsNew(cfg.calendar, w, lease, scope, daily, monthly);
        ChargeStaysCapped(cfg.calendar, l, w, ChargeOf(w.db, lease, scope), daily, monthly);
      }
    } else {
      StepCharges(cfg, w, op);
    }
  }

  lemma {:induction false} RunCapped(cfg: Config, l: Limits, w: World, ops: seq<Op>)
    requires BudgetSafe(cfg.calendar, w) && Capped(cfg.calendar, l, w.charges)
    requires forall op :: op in ops ==> Within(l, op)
    ensures Capped(cfg.calendar, l, Run(cfg, w, ops).charges)
    decreases |ops|
  {
    hide Step, BudgetSafe, Capped, Within;
    if ops != [] {
      StepBudgetSafe(cfg, w, ops[0]);
      StepCapped(cfg, l, w, ops[0]);
      RunCapped(cfg, l, Step(cfg, w, ops[0]), ops[1..]);
    }
  }

  predicate InScope(d: Dispatch, scope: Scope) {
    DispatchScope(d.capture.identity.task) == Some(scope)
  }

  /** The dispatches of a scope on one UTC day, by their place in the run. */
  function DispatchesOn(ds: seq<Dispatch>, scope: Scope, day: int): set<int> {
    set i | 0 <= i < |ds| && InScope(ds[i], scope) && ds[i].at / DAY == day
  }

  function DispatchesIn(cal: Calendar, ds: seq<Dispatch>, scope: Scope, month: int): set<int> {
    set i | 0 <= i < |ds| && InScope(ds[i], scope) && cal.monthOf(ds[i].at / DAY) == month
  }

  /** The reservation that the i-th dispatch used up. */
  ghost function UsedBy(ds: seq<Dispatch>, scope: Scope, i: int): Charge {
    if 0 <= i < |ds| then Charge(scope, ds[i].fence, ds[i].at / DAY)
        else Charge(scope, CaptureKey(Identity(MatcherExtract, NoSource, NaturalCapture, 0, 0), 0), 0)
  }

  lemma UsedReservation(w: World, scope: Scope, i: int)
    requires ReservationsPaid(w) && DispatchesPaid(w) && DispatchSafe(w)
    requires 0 <= i < |w.dispatches| && InScope(w.dispatches[i], scope)
    ensures UsedBy(w.dispatches, scope, i) in w.charges
  {
    hide FencesKeyed, Undispatched;
    var d := w.dispatches[i];
    assert d in w.dispatches;
    assert Shown(w.db.fences, Charge(d.reserved.value.scope, d.fence, d.reserved.value.day));
  }

  lemma DispatchesUseReservations(cal: Calendar, w: World, scope: Scope, period: int)
    requires ReservationsPaid(w) && DispatchesPaid(w) && DispatchSafe(w)
    ensures |DispatchesOn(w.dispatches, scope, period)| <= |ChargesOn(w.charges, scope, period)|
    ensures |DispatchesIn(cal, w.dispatches, scope, period)| <= |ChargesIn(cal, w.charges, scope, period)|
  {
    hide ReservationsPaid, DispatchesPaid, AllFrozen, FencesKeyed;
    forall i | 0 <= i < |w.dispatches| && InScope(w.dispatches[i], scope)
        ensures UsedBy(w.dispatches, scope, i) in w.charges {
      UsedReservation(w, scope, i);
    }
    var used := (i: int) => UsedBy(w.dispatches, scope, i);
    CardInjection(DispatchesOn(w.dispatches, scope, period), ChargesOn(w.charges, scope, period), used);
    CardInjection(DispatchesIn(cal, w.dispatches, scope, period), ChargesIn(cal, w.charges, scope, period), used);
  }

  /** If no caller passes more than these limits, no UTC day sees more dispatches of a
      scope than its daily limit and no month more than its monthly limit. */
  lemma DispatchesWithinLimits(cfg: Config, l: Limits, ops: seq<Op>, scope: Scope, period: int)
    requires forall op :: op in ops ==> Within(l, op)
    ensures var ds := Run(cfg, START, ops).dispatches;
      && |DispatchesOn(ds, scope, period)| <= l.daily(scope)
      && |DispatchesIn(cfg.calendar, ds, scope, period)| <= l.monthly(scope)
  {
    hide Run;
    assert BudgetSafe(cfg.calendar, START) && DispatchSafe(START);
    forall s, p ensures ChargesOn(START.charges, s, p) == {} && ChargesIn(cfg.calendar, START.charges, s, p) == {} {}
    RunDispatchSafe(cfg, START, ops);
    RunBudgetSafe(cfg, START, ops);
    RunCapped(cfg, l, START, ops);
    DispatchesUseReservations(cfg.calendar, Run(cfg, START, ops), scope, period);
  }
}
