/**
What the fence protocol does allow: a request nobody has ever captured before is dispatched,
a request that another build captured before is held, and a response that was persisted
before a crash is found again and served.
*/
module DispatchProgress {
  import opened Options
  import opened Ledger
  import opened DispatchSpec
  import opened FenceSafety

  // ------------------------------------------------------- an older capture holds the new build

  /** Another build has captured the same request, and the capture is still there. */
  ghost predicate OtherBuild(db: Db, k: CaptureKey, c: CaptureKey) {
    c in db.evidence.captures && c.identity == k.identity && c.build != k.build
  }

  lemma OtherBuildExactly(db: Db, k: CaptureKey, c: CaptureKey)
    ensures Sibling(db, k, c) <==> OtherBuild(db, k, c)
  {
  }

  /** No other build's capture comes before c in the order of capture time, then key. */
  ghost predicate Oldest(db: Db, k: CaptureKey, c: CaptureKey) {
    OtherBuild(db, k, c) && forall o :: OtherBuild(db, k, o) ==> NoLater(db, c, o)
  }

  lemma OldestExactly(db: Db, k: CaptureKey, c: CaptureKey)
    ensures Oldest(db, k, c) <==> Sibling(db, k, c) && NoOlder(db, k, c)
  {
    hide Sibling;
    forall o ensures Sibling(db, k, o) <==> OtherBuild(db, k, o) { OtherBuildExactly(db, k, o); }
    if Sibling(db, k, c) && NoOlder(db, k, c) {
      forall o | OtherBuild(db, k, o) ensures NoLater(db, c, o) { assert Sibling(db, k, o); }
    }
    if Oldest(db, k, c) {
      forall o | o in db.evidence.captures && Sibling(db, k, o) ensures NoLater(db, c, o) {
        assert OtherBuild(db, k, o);
      }
    }
  }

  /** c comes no later than o in the order of capture time, then key. */
  predicate NoLater(db: Db, c: CaptureKey, o: CaptureKey)
    requires c in db.evidence.captures && o in db.evidence.captures
  {
    var a, b := db.evidence.captures[c].capturedAt, db.evidence.captures[o].capturedAt;
    a < b || (a == b && c.build <= o.build)
  }

  lemma {:induction false} EarliestOf(db: Db, s: set<CaptureKey>) returns (c: CaptureKey)
    requires s != {} && forall o :: o in s ==> o in db.evidence.captures
    ensures c in s && forall o :: o in s ==> NoLater(db, c, o)
    decreases |s|
  {
    var e :| e in s;
    c := e;
    if s != {e} {
      var d := EarliestOf(db, s - {e});
      if !NoLater(db, e, d) { c := d; }
      forall o | o in s ensures NoLater(db, c, o) {
        if o != e { assert o in s - {e} && NoLater(db, d, o); }
      }
    }
  }

  /** If there is an older capture of a request at all, there is an oldest. */
  lemma OldestExists(db: Db, k: CaptureKey, c: CaptureKey)
    requires OtherBuild(db, k, c)
    ensures HasSibling(db, k) && Oldest(db, k, OldestSibling(db, k))
  {
    var s := set o | o in db.evidence.captures && Sibling(db, k, o);
    assert c in s;
    var oldest := EarliestOf(db, s);
    forall o | o in db.evidence.captures && Sibling(db, k, o) ensures NoLater(db, oldest, o) { assert o in s; }
    assert NoOlder(db, k, oldest);
    OldestExactly(db, k, OldestSibling(db, k));
  }

  /** Every check before the decision on the row passes. */
  ghost predicate Admissible(db: Db, req: DispatchRequest) {
    FencesKeyed(db.fences) && AdmitRequest(db, req).None? && CheckCaseFence(db, req.caseFence).None?
  }

  /** A request without a fence that another build has captured is held, whatever the new
      capture says of itself: the fence is closed at once, under the oldest capture. */
  lemma OlderCaptureHolds(db: Db, req: DispatchRequest, token: string, c: CaptureKey)
    requires Admissible(db, req) && req.capture.identity !in db.fences.index && OtherBuild(db, req.capture, c)
    ensures PrepareStep(db, req, token).1 == Uncertain
    ensures var x := PrepareStep(db, req, token).0.fences;
      && req.capture.identity in x.index
      && var f := x.index[req.capture.identity];
      && f in x.attempts && Closed(x.attempts[f]) && x.attempts[f].legacy && Oldest(db, req.capture, f)
  {
    hide AdmitRequest, CheckCaseFence, Retained, NoOlder;
    OldestExists(db, req.capture, c);
    NoRowNoAlias(db.fences, req.capture);
    NoRowNoAlias(db.fences, OldestSibling(db, req.capture));
    NothingActive(db, OldestSibling(db, req.capture));
  }

  lemma NoRowNoAlias(x: Fences, k: CaptureKey)
    requires FencesKeyed(x) && k.identity !in x.index
    ensures k !in x.attempts && k !in x.aliases
  {
  }

  lemma NothingActive(db: Db, c: CaptureKey)
    requires FencesKeyed(db.fences) && c.identity !in db.fences.index
    ensures !HasActive(db, c)
  {
  }

  // ------------------------------------------------------------- a new request goes out

  /** Nobody has prepared, captured or answered this request before. */
  ghost predicate Unheard(db: Db, req: DispatchRequest) {
    && req.capture.identity !in db.fences.index && req.freshCapture
    && !(req.capture in db.evidence.results && |db.evidence.results[req.capture].body| <= 131072)
    && (forall c :: !OtherBuild(db, req.capture, c))
  }

  lemma UnheardMeans(db: Db, req: DispatchRequest)
    requires forall c :: !OtherBuild(db, req.capture, c)
    ensures !HasSibling(db, req.capture)
    ensures AdmitRequest(db, req).None? ==>
      (Retained(db, req.capture).None? <==>
         !(req.capture in db.evidence.results && |db.evidence.results[req.capture].body| <= 131072))
  {
    forall c ensures !Sibling(db, req.capture, c) { OtherBuildExactly(db, req.capture, c); }
  }

  lemma UnheardIsGranted(db: Db, req: DispatchRequest, token: string)
    requires Admissible(db, req) && Unheard(db, req)
    ensures PrepareStep(db, req, token).1 == Granted(LeaseFor(req, token, req.capture, 1))
    ensures PrepareStep(db, req, token).0.fences.attempts ==
      db.fences.attempts[req.capture :=
          NewAttempt(req, req.capture, false).(owner := Some(token), generation := 1,
          leaseUntil := Some(db.now + LeaseDuration(req)))]
    ensures PrepareStep(db, req, token).0 == db.(fences := PrepareStep(db, req, token).0.fences)
  {
    hide AdmitRequest, CheckCaseFence, Retained, HasSibling;
    UnheardMeans(db, req);
    NoRowNoAlias(db.fences, req.capture);
  }

  /** With budget left, a new request is prepared, reserved and dispatched. */
  lemma UnheardIsDispatched(cal: Calendar, db: Db, req: DispatchRequest, token: string, scope: Scope, daily: int,
      monthly: int)
    requires Admissible(db, req) && Unheard(db, req) && DispatchScope(req.task) == Some(scope)
    requires ChargeBudget(db.budgets, BudgetKey(scope, cal.monthOf(Today(db))), Today(db), daily, monthly).Some?
    ensures var lease := LeaseFor(req, token, req.capture, 1);
      var prepared := PrepareStep(db, req, token);
      var reserved := ReserveStep(cal, prepared.0, lease, scope, daily, monthly);
      var begun := BeginStep(reserved.0, lease);
      && prepared.1 == Granted(lease) && reserved.1 == Reserved(true) && begun.1 == None
      && req.capture in begun.0.fences.attempts && begun.0.fences.attempts[req.capture].state == Intent
  {
    hide PrepareStep, CheckCaseFence, FencesKeyed;
    UnheardIsGranted(db, req, token);
    AdmittedMeans(db, req);
    var prepared := PrepareStep(db, req, token).0;
    CaseUnaffected(db, prepared, req.caseFence);
    CaseUnaffected(db, ReserveStep(cal, prepared, LeaseFor(req, token, req.capture, 1), scope, daily, monthly).0,
        req.caseFence);
    CaseIsHeld(db, req.caseFence);
  }

  lemma AdmittedMeans(db: Db, req: DispatchRequest)
    requires AdmitRequest(db, req).None?
    ensures PublicAdmission(db, req.capture) && req.capture.identity.task == req.task && 0 < LeaseDuration(req)
  {
  }

  /** The case fence looks at the queue and the clock only. */
  lemma CaseUnaffected(a: Db, b: Db, c: Option<CaseFence>)
    requires a.queue == b.queue && a.now == b.now
    ensures CheckCaseFence(b, c) == CheckCaseFence(a, c)
    ensures c.Some? ==> CaseHeld(b, c.value) == CaseHeld(a, c.value)
  {
  }

  lemma CaseIsHeld(db: Db, c: Option<CaseFence>)
    requires CheckCaseFence(db, c).None?
    ensures c.Some? ==> CaseHeld(db, c.value)
  {
  }

  // ----------------------------------------------------------- a paid response is not lost

  /** A response was persisted for a dispatched fence, but the fence does not know of it. */
  ghost predicate Unobserved(db: Db, f: CaptureKey, t: TaskKey, r: Response) {
    && f in db.fences.attempts
    && var row := db.fences.attempts[f];
    && row.state == Intent && !row.legacy && row.bound.None? && row.taskKey == Some(t)
    && Kept(db, row.active) && db.evidence.results[row.active] == r
    && r.status > 0 && |r.body| <= MAX_BODY && r.digest == Sha256(r.body)
  }

  /** Recovery binds the response, and a replay of the request under the task's lease serves
      exactly that body. */
  lemma CrashedDispatchIsReplayed(db: Db, f: CaptureKey, t: TaskKey, r: Response, req: DispatchRequest)
    requires FencesKeyed(db.fences) && Unobserved(db, f, t, r)
    requires req.capture.identity == f.identity && req.capture in db.fences.aliases
    requires AdmitRequest(db, req.(duration := 0)).None? && CheckCaseFence(db, req.caseFence).None?
      && CaseTask(req.caseFence) == Some(t)
    requires PublicAdmission(db, db.fences.attempts[f].active)
    ensures var after := ReconcileStep(db, t);
      && after.fences.attempts[f].bound == Some(Bound(r.digest, r.observedAt))
      && Replay(after, req) == ReplayBody(r, db.fences.attempts[f].active)
  {
    hide PublicAdmission, CheckCaseFence, FencesKeyed, AdmitRequest;
    AliasLeadsHome(db.fences, f, req.capture);
    var after := ReconcileStep(db, t);
    var row := db.fences.attempts[f];
    assert MayReconcile(db, t, row);
    assert after.fences.attempts[f] == Bind(row, r, r.observedAt, Result);
    SameAdmission(db, after, req);
    SamePublic(db, after, row.active);
    CaseUnaffected(db, after, req.caseFence);
  }

  lemma AliasLeadsHome(x: Fences, f: CaptureKey, k: CaptureKey)
    requires FencesKeyed(x) && f in x.attempts && k in x.aliases && k.identity == f.identity
    ensures x.aliases[k] == f && RowKeyed(f, x.attempts[f])
  {
  }

  lemma SameAdmission(a: Db, b: Db, req: DispatchRequest)
    requires a.evidence == b.evidence && a.now == b.now && AdmitRequest(a, req.(duration := 0)).None?
    ensures AdmitRequest(b, req.(duration := 0)).None? && req.capture.identity.task == req.task
      && req.capture.identity.source == req.source
  {
  }

  lemma SamePublic(a: Db, b: Db, k: CaptureKey)
    requires a.evidence == b.evidence && a.now == b.now
    ensures PublicAdmission(a, k) == PublicAdmission(b, k)
  {
  }
}
