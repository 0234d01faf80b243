/**
PostgresDispatchController: every method is one transaction that updates rows in place
and is proved to do to the tables exactly what DispatchSpec says.
*/
module DispatchController {
  import opened Options
  import opened Ledger
  import opened DispatchSpec
  import opened FenceSafety
  import opened Database

  class Controller {
    const db: Tables
    const calendar: Calendar

    constructor (db: Tables, calendar: Calendar)
      ensures this.db == db && this.calendar == calendar
    {
      this.db, this.calendar := db, calendar;
    }

    /** The unique index and the aliases agree with the rows. */
    ghost predicate Valid()
      reads db
    {
      FencesKeyed(db.Fence())
    }

    /** resolveSemanticFence */
    method ResolveSemanticFence(k: CaptureKey) returns (fence: CaptureKey, legacy: bool)
      requires Valid()
      ensures Resolve(db.View(), k) == Some(Fence(fence, legacy))
    {
      ResolveKeyed(db.View(), k);
      if k.identity in db.index {
        return db.index[k.identity], false;
      }
      if c :| c in db.captures && Sibling(db.View(), k, c) && NoOlder(db.View(), k, c) {
        assert HasSibling(db.View(), k);
        assert c.build == OldestSibling(db.View(), k).build;
        return c, true;
      }
      assert !HasSibling(db.View(), k);
      return k, false;
    }

    /** linkDispatchAlias: false when the capture already belongs to another fence. */
    method LinkDispatchAlias(aliases: map<CaptureKey, CaptureKey>, k: CaptureKey, fence: CaptureKey)
      returns (ok: bool, linked: map<CaptureKey, CaptureKey>)
      ensures ok == LinkAlias(aliases, k, fence).Some?
      ensures ok ==> linked == LinkAlias(aliases, k, fence).value
      ensures ok <==> k !in aliases || aliases[k] == fence
      ensures ok ==> linked == aliases[k := fence]
    {
      linked := aliases;
      if k !in linked {
        linked := linked[k := fence];
      }
      ok := linked[k] == fence;
    }

    /** The second half of Prepare: what becomes of the locked row. */
    method DecideAttempt(current: Attempt, isNew: bool, legacy: bool, retained: Option<Response>, req: DispatchRequest,
                         token: string, fence: CaptureKey) returns (row: Attempt, outcome: PrepareOutcome)
      ensures (row, outcome) == Decide(current, isNew, legacy, retained, req, token, fence, db.now)
    {
      row := current;
      var taskKey := row.taskKey.Or(CaseTask(req.caseFence));
      if !legacy && retained.Some? && retained.value.status > 0 {
        var r := retained.value;
        if r.digest != Sha256(r.body) || (row.bound.Some? && row.bound.value.digest != r.digest) {
          return row, Refused(CaptureUnavailable);
        }
        if row.bound.Some? && row.bound.value.observedAt != r.observedAt {
          return row, Refused(OutcomeUnknown);
        }
        row := row.(state := Result, bound := Some(Bound(r.digest, r.observedAt)),
            answer := Some(Answer(r.status, r.errorClass)));
        row := row.(taskKey := taskKey, audit := row.audit.(resultAt := row.audit.resultAt.Or(Some(db.now))));
        return row, Replayed;
      }
      if !isNew && row.state == Intent && Later(row.leaseUntil, db.now) {
        return row, Busy;
      }
      var spent := row.state == Intent || row.state == Unknown || row.state == Result;
      if legacy || (!isNew && spent) || (isNew && (!req.freshCapture || retained.Some?)) {
        row := row.(state := Unknown, taskKey := taskKey, audit := row.audit.(reason := UncertainOrExpiredResult));
        return row, Uncertain;
      }
      if !isNew && row.state == NoDispatch && Later(row.retryAfter, db.now) {
        return row, NotDue(row.retryAfter.value);
      }
      if !isNew && Later(row.leaseUntil, db.now) {
        return row, Busy;
      }
      row := row.(state := Prepared, active := req.capture, owner := Some(token), generation := row.generation + 1);
      row := row.(leaseUntil := Some(db.now + LeaseDuration(req)), taskKey := taskKey, retryAfter := None);
      row := row.(audit := row.audit.(reason := NoReason));
      outcome := Granted(DispatchLease(req.capture, Some(fence), token, row.generation, req.caseFence));
    }

    method Prepare(req: DispatchRequest, token: string) returns (outcome: PrepareOutcome)
      requires Valid()
      modifies db
      ensures (db.View(), outcome) == PrepareStep(old(db.View()), req, token)
      ensures Valid()
    {
      hide AdmitRequest, Resolve, CheckCaseFence, Foreign, LinkAlias, Retained, Decide, FencesKeyed, FencesKept;
      PrepareKeepsFences(db.View(), req, token);
      var refusal := AdmitRequest(db.View(), req);
      if refusal.Some? {
        return Refused(refusal.value);
      }
      var fence, legacy := ResolveSemanticFence(req.capture);
      var isNew := fence !in db.attempts;
      var row := if isNew then NewAttempt(req, fence, legacy) else db.attempts[fence];
      refusal := CheckCaseFence(db.View(), req.caseFence);
      if refusal.Some? {
        return Refused(refusal.value);
      }
      if !isNew && Foreign(row, req) {
        return Refused(LeaseInvalid);
      }
      var ok, aliases := LinkDispatchAlias(db.aliases, req.capture, fence);
      if ok {
        ok, aliases := LinkDispatchAlias(aliases, row.active, fence);
      }
      if !ok {
        return Refused(CaptureUnavailable);
      }
      row, outcome := DecideAttempt(row, isNew, legacy || row.legacy, Retained(db.View(), row.active), req, token,
          fence);
      if Commits(outcome) {
        db.attempts := db.attempts[fence := row];
        db.index := db.index[row.semantic := fence];
        db.aliases := aliases;
      }
    }

    method Reserve(lease: DispatchLease, scope: Scope, daily: int, monthly: int) returns (outcome: ReserveOutcome)
      requires Valid()
      modifies db`attempts, db`budgets
      ensures (db.View(), outcome) == ReserveStep(calendar, old(db.View()), lease, scope, daily, monthly)
      ensures Valid()
    {
      hide PublicAdmission, CheckCaseFence, FencesKeyed, FencesKept;
      ReserveKeepsFences(calendar, db.View(), lease, scope, daily, monthly);
      var f := lease.FenceKey();
      if f !in db.attempts {
        return ReserveRefused(LeaseInvalid);
      }
      var row := db.attempts[f];
      if row.owner != Some(lease.owner) || row.generation != lease.generation || !Later(row.leaseUntil, db.now)
         || !(row.state == Prepared || row.state == Admitted) || row.active != lease.capture
             || !PublicAdmission(db.View(), lease.capture)
      {
        return ReserveRefused(LeaseInvalid);
      }
      if DispatchScope(row.semantic.task) != Some(scope) {
        return ReserveRefused(LeaseInvalid);
      }
      if row.taskKey.Some? && row.taskKey != CaseTask(lease.caseFence) {
        return ReserveRefused(LeaseInvalid);
      }
      var refusal := CheckCaseFence(db.View(), lease.caseFence);
      if refusal.Some? {
        return ReserveRefused(refusal.value);
      }
      if daily <= 0 || monthly <= 0 {
        return NoAllowance;
      }
      var today := Today(db.View());
      var reusable := row.reserved == Some(Reservation(scope, today));
      if !reusable {
        var key := BudgetKey(scope, calendar.monthOf(today));
        var charged := ReserveBudget(key, today, daily, monthly);
        if !charged {
          var exhausted := key in db.budgets && db.budgets[key].monthlyCalls >= monthly;
          var reason, retry := DailyBudget, (today + 1) * DAY;
          if exhausted {
            reason, retry := MonthlyBudget, calendar.nextMonth(today) * DAY;
          }
          row := row.(state := NoDispatch, leaseUntil := None, retryAfter := Some(retry),
              audit := row.audit.(reason := reason));
          db.attempts := db.attempts[f := row];
          return Exhausted(reason, retry);
        }
      }
      row := row.(state := Admitted, reserved := Some(Reservation(scope, today)));
      db.attempts := db.attempts[f := row];
      return Reserved(!reusable);
    }

    /** The conditional upsert of the scope's budget row for this month. */
    method ReserveBudget(key: BudgetKey, today: int, daily: int, monthly: int) returns (charged: bool)
      requires daily > 0 && monthly > 0
      modifies db`budgets
      ensures var charge := ChargeBudget(old(db.budgets), key, today, daily, monthly);
        charged == charge.Some? && db.budgets ==
            if charged then old(db.budgets)[key := charge.value] else old(db.budgets)
    {
      var b := Budget(today, 0, 0);
      if key in db.budgets {
        b := db.budgets[key];
        if b.day != today {
          b := b.(day := today, dailyCalls := 0);
        }
        if b.monthlyCalls >= monthly || b.dailyCalls >= daily {
          return false;
        }
      }
      db.budgets := db.budgets[key := b.(dailyCalls := b.dailyCalls + 1, monthlyCalls := b.monthlyCalls + 1)];
      return true;
    }

    method BeginDispatch(lease: DispatchLease) returns (refusal: Option<Refusal>)
      requires Valid()
      modifies db`attempts
      ensures (db.View(), refusal) == BeginStep(old(db.View()), lease)
      ensures Valid()
    {
      hide CheckCaseFence, PublicAdmission, CaseHeld, FencesKeyed, FencesKept;
      BeginKeepsFences(db.View(), lease);
      var f := lease.FenceKey();
      if f !in db.attempts || db.attempts[f].owner != Some(lease.owner)
          || db.attempts[f].generation != lease.generation {
        return Some(LeaseInvalid);
      }
      refusal := CheckCaseFence(db.View(), lease.caseFence);
      if refusal.Some? {
        return;
      }
      var row := db.attempts[f];
      if !Later(row.leaseUntil, db.now) || row.active != lease.capture || row.legacy || row.state != Admitted
         || row.reserved.None? || row.reserved.value.day != Today(db.View())
             || !PublicAdmission(db.View(), lease.capture)
      {
        return Some(LeaseInvalid);
      }
      if row.taskKey != CaseTask(lease.caseFence)
          || (lease.caseFence.Some? && !CaseHeld(db.View(), lease.caseFence.value)) {
        return Some(LeaseInvalid);
      }
      row := row.(state := Intent, audit := row.audit.(intentAt := Some(db.now)));
      db.attempts := db.attempts[f := row];
    }

    method DeferNoDispatch(lease: DispatchLease, reason: string, retryAt: Time) returns (refusal: Option<Refusal>)
      requires Valid()
      modifies db`attempts
      ensures (db.View(), refusal) == DeferStep(old(db.View()), lease, reason, retryAt)
      ensures Valid()
    {
      hide FencesKeyed, FencesKept;
      DeferKeepsFences(db.View(), lease, reason, retryAt);
      var f := lease.FenceKey();
      if |reason| > 64 || !HoldsUndispatched(db.View(), lease) {
        return Some(LeaseInvalid);
      }
      var row := db.attempts[f].(state := NoDispatch, retryAfter := Some(retryAt), leaseUntil := None);
      db.attempts := db.attempts[f := row.(audit := row.audit.(reason := Given(reason)))];
      return None;
    }

    method ObserveResult(lease: DispatchLease, receipt: Receipt) returns (refusal: Option<Refusal>)
      requires Valid()
      modifies db`attempts
      ensures (db.View(), refusal) == ObserveStep(old(db.View()), lease, receipt)
      ensures Valid()
    {
      hide FencesKeyed, FencesKept;
      ObserveKeepsFences(db.View(), lease, receipt);
      if !MayObserve(db.View(), lease, receipt) {
        return Some(CaptureUnavailable);
      }
      var f, r := lease.FenceKey(), db.results[lease.capture];
      var row := db.attempts[f].(bound := Some(Bound(r.digest, r.observedAt)),
          answer := Some(Answer(r.status, r.errorClass)));
      row := row.(state := if r.status == 0 then Unknown else Result,
          audit := row.audit.(resultAt := row.audit.resultAt.Or(Some(db.now))));
      db.attempts := db.attempts[f := row];
      return None;
    }
  }
}
