/** When Reserve takes a unit of the budget, exactly, counted by the reservations themselves. */
module ReserveLaws {
  import opened Options
  import opened Ledger
  import opened DispatchSpec
  import opened WorkSpec
  import opened LedgerRuns
  import opened FenceSafety
  import opened BudgetSafety
  import opened DispatchProgress

  /** The capture is retained, unexpired and public right now. */
  ghost predicate PublicNow(db: Db, k: CaptureKey) {
    && k in db.evidence.captures && db.now < db.evidence.captures[k].expiresAt && k.identity.task != JunkPurgeTask
    && k.identity.infoHash in db.evidence.publicHashes
  }

  /** The lease is the one the fence shows, still running, and nothing has been sent. */
  ghost predicate HoldsFence(db: Db, lease: DispatchLease) {
    var f := if lease.fence.Some? then lease.fence.value else lease.capture;
    && f in db.fences.attempts
    && var row := db.fences.attempts[f];
    && row.owner == Some(lease.owner) && row.generation == lease.generation && row.active == lease.capture
    && Later(row.leaseUntil, db.now) && (row.state == Prepared || row.state == Admitted)
  }

  /** The budget a task is charged to. */
  ghost predicate Charges(scope: Scope, task: Task) {
    match scope
    case Matcher => task == MatcherExtract || task == MatcherRerank || task == MatcherEmbedding
    case ClassifierType => task == ClassifierTypeTask
    case ContentFilter => task == ContentFilterTask
  }

  /** Reserve is let through exactly for the holder of a fence that is still undispatched, whose
      capture is public, for the scope of its task, under the lease of its own work task. */
  lemma MayReserveExactly(db: Db, lease: DispatchLease, scope: Scope)
    ensures ReserveRefusal(db, lease, scope).None? <==>
      && HoldsFence(db, lease) && PublicNow(db, lease.capture)
      && var row := db.fences.attempts[lease.FenceKey()];
      && Charges(scope, row.semantic.task)
      && (row.taskKey.Some? ==> lease.caseFence.Some? && row.taskKey.value == lease.caseFence.value.task)
      && CheckCaseFence(db, lease.caseFence).None?
  {
    hide CheckCaseFence;
  }

  /** The day's reservations of the scope, and the month's. */
  ghost predicate RoomLeft(cal: Calendar, w: World, scope: Scope, daily: int, monthly: int) {
    var today := Today(w.db);
    && |ChargesOn(w.charges, scope, today)| < daily
    && |ChargesIn(cal, w.charges, scope, cal.monthOf(today))| < monthly
  }

  lemma ChargeExactly(cal: Calendar, w: World, scope: Scope, daily: int, monthly: int)
    requires BudgetsExact(cal, w) && daily > 0 && monthly > 0
    ensures var today := Today(w.db);
      var key := BudgetKey(scope, cal.monthOf(today));
      && (ChargeBudget(w.db.budgets, key, today, daily, monthly).Some? <==> RoomLeft(cal, w, scope, daily, monthly))
      && (key in w.db.budgets ==>
            w.db.budgets[key].monthlyCalls == |ChargesIn(cal, w.charges, scope, cal.monthOf(today))|)
      && (key !in w.db.budgets ==> ChargesIn(cal, w.charges, scope, cal.monthOf(today)) == {})
  {
    hide Today, Counted;
    var today := Today(w.db);
    var key := BudgetKey(scope, cal.monthOf(today));
    if key in w.db.budgets {
      assert RowExact(cal, w.charges, key, w.db.budgets[key], today);
      if w.db.budgets[key].day != today { NothingOnANewDay(cal, w, scope, today); }
    } else {
      NothingInANewMonth(cal, w, scope, key.month);
      NothingOnANewDay(cal, w, scope, today);
    }
  }

  /** For a caller that is let through with positive limits, the reservation is made exactly when
      the fence already holds one of this scope and day, or when both the day and the month have
      room; and it is charged exactly when it is new. */
  lemma ReservedExactly(cal: Calendar, w: World, lease: DispatchLease, scope: Scope, daily: int, monthly: int)
    requires BudgetSafe(cal, w) && ReserveRefusal(w.db, lease, scope).None? && daily > 0 && monthly > 0
    ensures var r := ReserveStep(cal, w.db, lease, scope, daily, monthly).1;
      var had := w.db.fences.attempts[lease.FenceKey()].reserved == Some(Reservation(scope, Today(w.db)));
      && (r.Reserved? <==> had || RoomLeft(cal, w, scope, daily, monthly))
      && (r.Reserved? ==> r.charged == !had)
      && (!r.Reserved? ==> r.Exhausted?)
  {
    hide ReserveRefusal, ChargeBudget, RoomLeft, FencesKeyed, BudgetsExact, ReservationsPaid, DispatchesPaid, Today;
    ChargeExactly(cal, w, scope, daily, monthly);
  }

  /** What a reservation changes: the fence shows it and keeps everything else, and a charge
      counts one more in its month. */
  lemma ReservedState(cal: Calendar, w: World, lease: DispatchLease, scope: Scope, daily: int, monthly: int)
    requires BudgetSafe(cal, w) && ReserveStep(cal, w.db, lease, scope, daily, monthly).1.Reserved?
    ensures var f, after := lease.FenceKey(), ReserveStep(cal, w.db, lease, scope, daily, monthly).0;
      var key := BudgetKey(scope, cal.monthOf(Today(w.db)));
      && f in w.db.fences.attempts && f in after.fences.attempts
      && after.fences.attempts[f] ==
           w.db.fences.attempts[f].(state := Admitted, reserved := Some(Reservation(scope, Today(w.db))))
      && (ReserveStep(cal, w.db, lease, scope, daily, monthly).1.charged ==>
            key in after.budgets
            && after.budgets[key].monthlyCalls == |ChargesIn(cal, w.charges, scope, key.month)| + 1)
      && (!ReserveStep(cal, w.db, lease, scope, daily, monthly).1.charged ==> after.budgets == w.db.budgets)
  {
    hide ReserveRefusal, RoomLeft, FencesKeyed, BudgetsExact, ReservationsPaid, DispatchesPaid, Today;
    if daily > 0 && monthly > 0 { ChargeExactly(cal, w, scope, daily, monthly); }
  }

  /** An exhausted budget charges nothing and gives the fence up until the next day, or until the
      next month if the month is used up; both are later than now. */
  lemma ExhaustedState(cal: Calendar, w: World, lease: DispatchLease, scope: Scope, daily: int, monthly: int)
    requires BudgetSafe(cal, w) && ReserveStep(cal, w.db, lease, scope, daily, monthly).1.Exhausted?
    ensures var f, after := lease.FenceKey(), ReserveStep(cal, w.db, lease, scope, daily, monthly).0;
      var Exhausted(reason, retryAfter) := ReserveStep(cal, w.db, lease, scope, daily, monthly).1;
      var today := Today(w.db);
      var monthUsed := |ChargesIn(cal, w.charges, scope, cal.monthOf(today))| >= monthly;
      && reason == (if monthUsed then MonthlyBudget else DailyBudget)
      && retryAfter == (if monthUsed then cal.nextMonth(today) * 86_400_000_000 else (today + 1) * 86_400_000_000)
      && (cal.nextMonth(today) > today ==> retryAfter > w.db.now)
      && after.budgets == w.db.budgets && f in after.fences.attempts && f in w.db.fences.attempts
      && after.fences.attempts[f] == w.db.fences.attempts[f].(
           state := NoDispatch, leaseUntil := None, retryAfter := Some(retryAfter),
           audit := w.db.fences.attempts[f].audit.(reason := reason))
  {
    hide ReserveRefusal, ChargeBudget, RoomLeft, FencesKeyed, BudgetsExact, ReservationsPaid, DispatchesPaid;
    ChargeExactly(cal, w, scope, daily, monthly);
    LaterDay(w.db.now, Today(w.db), cal.nextMonth(Today(w.db)));
  }

  lemma LaterDay(now: Time, today: int, day: int)
    requires today == now / 86_400_000_000
    ensures (today + 1) * 86_400_000_000 > now && (day > today ==> day * 86_400_000_000 > now)
  {
  }

  /** In every reachable state, a request nobody has captured before is prepared, reserved and
      dispatched if the day and the month have room for its scope. */
  lemma RoomIsUsed(cfg: Config, w: World, req: DispatchRequest, token: string, scope: Scope, daily: int, monthly: int)
    requires BudgetSafe(cfg.calendar, w) && Admissible(w.db, req) && Unheard(w.db, req) && Charges(scope, req.task)
    requires daily > 0 && monthly > 0 && RoomLeft(cfg.calendar, w, scope, daily, monthly)
    ensures var lease := LeaseFor(req, token, req.capture, 1);
      var prepared := PrepareStep(w.db, req, token);
      var reserved := ReserveStep(cfg.calendar, prepared.0, lease, scope, daily, monthly);
      prepared.1 == Granted(lease) && reserved.1 == Reserved(true) && BeginStep(reserved.0, lease).1 == None
  {
    hide PrepareStep, ReserveStep, BeginStep, ChargeBudget, RoomLeft, FencesKeyed, BudgetsExact, ReservationsPaid,
        DispatchesPaid, Admissible, Unheard, Today;
    ChargeExactly(cfg.calendar, w, scope, daily, monthly);
    UnheardIsDispatched(cfg.calendar, w.db, req, token, scope, daily, monthly);
  }
}
