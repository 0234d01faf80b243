/**
Runs of removals and restores among recrawls, schema changes, privacy changes and,
unless excluded, other writers of verdicts.
*/
module CatalogueRuns {
  import opened Options
  import opened RecoverySpec
  import opened CatalogueSafety

  datatype Op =
    | Remove(removal: Removal)
    | RestoreOp(restoration: Restoration)
    | Recatalogue(catalogue: Catalogue)
    | SetGuards(guards: Guards)
    | SetSchema(schema: nat, cascadeKnown: bool)
    | ForeignVerdict(hash: Hash, verdict: Verdict, mechanism: Mechanism)

  /** Whoever else writes the catalogue does so under its foreign keys. */
  ghost predicate Allowed(op: Op) {
    op.Recatalogue? ==> WellFormed(op.catalogue)
  }

  ghost function Next(cfg: Config, st: State, op: Op): State {
    match op
    case Remove(c) => RemoveBatch(cfg, st, c).0
    case RestoreOp(c) => Restore(cfg, st, c).0
    case Recatalogue(cat) => st.(catalogue := cat)
    case SetGuards(g) => st.(guards := g)
    case SetSchema(schema, known) => st.(schema := schema, cascadeKnown := known)
    case ForeignVerdict(h, v, m) => RecordVerdict(st, h, v, m, OtherProof)
  }

  ghost function Run(cfg: Config, st: State, ops: seq<Op>): State
    decreases |ops|
  {
    if ops == [] then st else Run(cfg, Next(cfg, st, ops[0]), ops[1..])
  }

  /** Nothing retained yet; any catalogue, any schema. */
  ghost predicate Initial(st: State) {
    WellFormed(st.catalogue) && st.snapshots == [] && st.events == [] && st.verdicts == map[] && st.usedBytes == 0
        && st.count == 0
  }

  // ------------------------------------------------------------------ what every step keeps

  /** The removal that made the i-th snapshot is in the ledger and bound to it. */
  ghost predicate SnapshotBound(st: State, i: int)
    requires 0 <= i < |st.snapshots|
  {
    var s := st.snapshots[i];
    && PayloadShaped(s.payload, s.hash) && Torrents in s.payload && s.payload[Torrents] != {}
    && 0 <= s.removedEvent < |st.events|
    && var e := st.events[s.removedEvent];
    && e.hash == s.hash && e.verdict == Tombstoned && e.proof == Receipt(i + 1, ToRemoved)
  }

  ghost predicate Sound(st: State) {
    WellFormed(st.catalogue) && forall i :: 0 <= i < |st.snapshots| ==> SnapshotBound(st, i)
  }

  /** A retained snapshot never changes except from removed to restored. */
  ghost predicate SnapshotKept(s: Snapshot, t: Snapshot) {
    && t.hash == s.hash && t.payload == s.payload && t.schema == s.schema && t.reason == s.reason
    && t.payloadBytes == s.payloadBytes && t.expiresAt == s.expiresAt && t.removedEvent == s.removedEvent
    && (s.state == Restored ==> t.state == Restored)
  }

  /** Snapshots and verdict events are only ever appended. */
  ghost predicate LedgerKept(a: State, b: State) {
    && a.events <= b.events
    && |a.snapshots| <= |b.snapshots|
    && forall i :: 0 <= i < |a.snapshots| ==> SnapshotKept(a.snapshots[i], b.snapshots[i])
  }

  ghost predicate Progress(a: State, b: State) {
    Sound(b) && LedgerKept(a, b)
  }

  lemma NoProgress(a: State)
    requires Sound(a)
    ensures Progress(a, a)
  {
  }

  lemma ProgressTransitive(a: State, b: State, c: State)
    requires LedgerKept(a, b) && LedgerKept(b, c)
    ensures LedgerKept(a, c)
  {
    forall i | 0 <= i < |a.snapshots| ensures SnapshotKept(a.snapshots[i], c.snapshots[i]) {
      assert SnapshotKept(a.snapshots[i], b.snapshots[i]) && SnapshotKept(b.snapshots[i], c.snapshots[i]);
    }
  }

  /** A new verdict event leaves every older snapshot bound. */
  lemma BoundStaysBound(a: State, b: State, i: int)
    requires 0 <= i < |a.snapshots| && SnapshotBound(a, i) && a.events <= b.events
    requires i < |b.snapshots| && SnapshotKept(a.snapshots[i], b.snapshots[i])
    ensures SnapshotBound(b, i)
  {
    assert b.events[a.snapshots[i].removedEvent] == a.events[a.snapshots[i].removedEvent];
  }

  lemma NewRemovalSound(cfg: Config, st: State, h: Hash, mechanism: Mechanism, reason: string, now: int)
    requires Sound(st) && HasTorrent(st.catalogue, h)
    ensures Progress(st, RemovedState(cfg, st, h, mechanism, reason, now))
  {
    hide WellFormed, HasTorrent, PayloadShaped, Capture, Cascade;
    var after := RemovedState(cfg, st, h, mechanism, reason, now);
    CascadeWellFormed(st.catalogue, h);
    CaptureShaped(st.catalogue, h);
    CaptureHasTorrent(st.catalogue, h);
    forall i | 0 <= i < |st.snapshots| ensures SnapshotBound(after, i) {
      BoundStaysBound(st, after, i);
    }
    assert SnapshotBound(after, |st.snapshots|);
  }

  lemma CaptureHasTorrent(cat: Catalogue, h: Hash)
    requires HasTorrent(cat, h)
    ensures Torrents in Capture(cat, h) && Capture(cat, h)[Torrents] != {}
  {
    EveryTable(Torrents);
    var r :| r in cat && r.Child? && r.table == Torrents && r.hash == h;
    assert r in Capture(cat, h)[Torrents];
  }

  lemma {:induction false} RemoveAllSound(cfg: Config, st: State, hashes: seq<Hash>, mechanism: Mechanism,
      reason: string, now: int)
    requires Sound(st) && RemoveAll(cfg, st, hashes, mechanism, reason, now).Ok?
    ensures Progress(st, RemoveAll(cfg, st, hashes, mechanism, reason, now).value.0)
    decreases |hashes|
  {
    hide Sound, LedgerKept, RemovalGuard, RemovalReceipt, Oversized, RemovedState;
    NoProgress(st);
    if hashes != [] {
      var rest, h := hashes[..|hashes| - 1], hashes[|hashes| - 1];
      RemoveAllSound(cfg, st, rest, mechanism, reason, now);
      var mid := RemoveAll(cfg, st, rest, mechanism, reason, now).value.0;
      NoProgress(mid);
      if HasTorrent(mid.catalogue, h) { NewRemovalSound(cfg, mid, h, mechanism, reason, now); }
      ProgressTransitive(st, mid, RemoveAll(cfg, st, hashes, mechanism, reason, now).value.0);
    }
  }

  lemma RestoredWellFormed(cat: Catalogue, after: Catalogue, h: Hash, p: Payload)
    requires WellFormed(cat) && PayloadShaped(p, h) && TorrentSources in p && RestoredSoFar(cat, after, TABLES, h, p)
    requires Torrents in p && p[Torrents] != {}
    ensures WellFormed(after)
  {
    EveryTable(Torrents);
    EveryTable(TorrentSources);
    EveryTable(TorrentsTorrentSources);
    var torrent :| torrent in p[Torrents];
    assert torrent in TableRows(after, Torrents, h);
    forall r | r in after && r.Child? ensures r.table != TorrentSources && HasTorrent(after, r.hash) {
      if r in cat && r.hash != h {
        var t :| t in cat && t.Child? && t.table == Torrents && t.hash == r.hash;
        assert t in after;
      }
    }
    forall r | r in after && r.Child? && r.table == TorrentsTorrentSources
        ensures exists s :: s in after && s.Shared? && s.key == r.link {
      if r in cat {
        var s :| s in cat && s.Shared? && s.key == r.link;
        assert s in after;
      } else {
        assert r in TableRows(after, TorrentsTorrentSources, h);
        assert r.link in PayloadKeys(p[TorrentSources]);
        var s: Row :| s in p[TorrentSources] && s.key == r.link;
        assert s in SharedRows(after, PayloadKeys(p[TorrentSources]));
      }
    }
  }

  /** When Restore answers true, the ten tables hold exactly the captured rows of the hash,
      every other torrent's rows are untouched, and the catalogue is well formed. */
  lemma RestoreExact(cfg: Config, st: State, c: Restoration)
    requires Sound(st) && Restore(cfg, st, c).1 == Ok(true)
    ensures var after, s := Restore(cfg, st, c).0, st.snapshots[c.id - 1];
      && (forall t :: t in TABLES ==> t in s.payload && RowsOf(after.catalogue, t, s.hash) == s.payload[t])
      && (forall t, g :: g != s.hash ==> TableRows(after.catalogue, t, g) == TableRows(st.catalogue, t, g))
      && WellFormed(after.catalogue)
  {
    hide WellFormed, HasTorrent, RestoreTables, PayloadShaped, RowsOf;
    var s := st.snapshots[c.id - 1];
    assert SnapshotBound(st, c.id - 1);
    ShapedTables(s.payload, s.hash);
    RestoredRowsExact(st.catalogue, s.hash, s.payload, c.regenerate);
    var after := Restore(cfg, st, c).0.catalogue;
    RestoredWellFormed(st.catalogue, after, s.hash, s.payload);
    forall t, g | g != s.hash ensures TableRows(after, t, g) == TableRows(st.catalogue, t, g) {
    }
  }

  lemma RestoreSound(cfg: Config, st: State, c: Restoration)
    requires Sound(st)
    ensures Progress(st, Restore(cfg, st, c).0)
  {
    hide WellFormed, RestoreTables, PayloadShaped, MayRestore;
    NoProgress(st);
    if Restore(cfg, st, c).1 == Ok(true) {
      var after := Restore(cfg, st, c).0;
      RestoreExact(cfg, st, c);
      forall i | 0 <= i < |st.snapshots| ensures SnapshotBound(after, i) {
        BoundStaysBound(st, after, i);
      }
    }
  }

  lemma NextSound(cfg: Config, st: State, op: Op)
    requires Sound(st) && Allowed(op)
    ensures Progress(st, Next(cfg, st, op))
  {
    hide RemoveAll, Restore, WellFormed, PayloadShaped;
    NoProgress(st);
    match op
    case Remove(c) =>
      if RemoveBatch(cfg, st, c).1.Ok? { RemoveAllSound(cfg, st, SortHashes(c.hashes), c.mechanism, c.reason, c.now); }
    case RestoreOp(c) => RestoreSound(cfg, st, c);
    case Recatalogue(_) => forall i | 0 <= i < |st.snapshots| ensures SnapshotBound(Next(cfg, st, op), i) {
      BoundStaysBound(st, Next(cfg, st, op), i);
    }
    case SetGuards(_) => forall i | 0 <= i < |st.snapshots| ensures SnapshotBound(Next(cfg, st, op), i) {
      BoundStaysBound(st, Next(cfg, st, op), i);
    }
    case SetSchema(_, _) => forall i | 0 <= i < |st.snapshots| ensures SnapshotBound(Next(cfg, st, op), i) {
      BoundStaysBound(st, Next(cfg, st, op), i);
    }
    case ForeignVerdict(_, _, _) => forall i | 0 <= i < |st.snapshots| ensures SnapshotBound(Next(cfg, st, op), i) {
      BoundStaysBound(st, Next(cfg, st, op), i);
    }
  }

  lemma {:induction false} RunSound(cfg: Config, st: State, ops: seq<Op>)
    requires Sound(st) && forall op :: op in ops ==> Allowed(op)
    ensures Progress(st, Run(cfg, st, ops))
    decreases |ops|
  {
    hide Next, Sound, LedgerKept, Allowed;
    NoProgress(st);
    if ops != [] {
      NextSound(cfg, st, ops[0]);
      RunSound(cfg, Next(cfg, st, ops[0]), ops[1..]);
      ProgressTransitive(st, Next(cfg, st, ops[0]), Run(cfg, st, ops));
    }
  }

  // -------------------------------------------------------------- removal and restoration

  /** Removing one torrent does not change what would be captured of another. */
  lemma CascadeKeepsOthers(cat: Catalogue, h: Hash, g: Hash)
    requires g != h
    ensures Capture(Cascade(cat, h), g) == Capture(cat, g)
  {
    var after := Cascade(cat, h);
    forall t ensures TableRows(after, t, g) == TableRows(cat, t, g) {
    }
    assert LinkedKeys(after, g) == LinkedKeys(cat, g);
    assert SharedRows(after, LinkedKeys(after, g)) == SharedRows(cat, LinkedKeys(cat, g));
  }

  /** One answer of a batch: the snapshot of its hash, new ones captured from `cat`. */
  ghost predicate Answered(cat: Catalogue, known: nat, st: State, h: Hash, mechanism: Mechanism, i: int) {
    && 0 <= i < |st.snapshots| && st.snapshots[i].hash == h && st.snapshots[i].state == Removed
    && (i >= known ==>
          && st.snapshots[i].payload == Capture(cat, h)
          && 0 <= st.snapshots[i].removedEvent < |st.events|
              && st.events[st.snapshots[i].removedEvent].mechanism == mechanism)
    && !HasTorrent(st.catalogue, h)
  }

  lemma RemoveOneAnswers(cfg: Config, cat: Catalogue, known: nat, st: State, h: Hash, mechanism: Mechanism,
      reason: string, now: int)
    requires Capture(st.catalogue, h) == Capture(cat, h) && known <= |st.snapshots|
    requires forall i :: known <= i < |st.snapshots| ==> st.snapshots[i].hash != h
    requires RemoveOne(cfg, st, h, mechanism, reason, now).Ok?
    ensures var (after, i) := RemoveOne(cfg, st, h, mechanism, reason, now).value;
      Answered(cat, known, after, h, mechanism, i)
  {
    hide Capture, HasTorrent, Oversized, RemovalGuard, RemovalReceipt;
    CascadeRemovesAll(st.catalogue, h);
  }

  /** What one removal leaves alone. */
  lemma RemoveOneFrame(cfg: Config, st: State, h: Hash, mechanism: Mechanism, reason: string, now: int)
    requires RemoveOne(cfg, st, h, mechanism, reason, now).Ok?
    ensures var (after, i) := RemoveOne(cfg, st, h, mechanism, reason, now).value;
      && st.snapshots <= after.snapshots && |after.snapshots| <= |st.snapshots| + 1 && st.events <= after.events
      && (|st.snapshots| < |after.snapshots| ==> after.snapshots[|st.snapshots|].hash == h)
      && after.catalogue <= st.catalogue
      && forall g :: g != h ==> Capture(after.catalogue, g) == Capture(st.catalogue, g)
  {
    hide Capture, HasTorrent, Oversized, RemovalGuard, RemovalReceipt;
    forall g | g != h ensures Capture(Cascade(st.catalogue, h), g) == Capture(st.catalogue, g) {
      CascadeKeepsOthers(st.catalogue, h, g);
    }
  }

  /** A batch that answers has removed every hash: each answer names a removed snapshot of
      its hash, and a new one holds exactly the rows the catalogue had before the batch. */
  lemma {:induction false} BatchCaptures(cfg: Config, st: State, hashes: seq<Hash>, mechanism: Mechanism,
      reason: string, now: int)
    requires Distinct(hashes) && RemoveAll(cfg, st, hashes, mechanism, reason, now).Ok?
    ensures var (after, ids) := RemoveAll(cfg, st, hashes, mechanism, reason, now).value;
      && |ids| == |hashes| && st.snapshots <= after.snapshots && st.events <= after.events
      && (forall j :: 0 <= j < |ids| ==> Answered(st.catalogue, |st.snapshots|, after, hashes[j], mechanism, ids[j]))
      && (forall i :: |st.snapshots| <= i < |after.snapshots| ==> after.snapshots[i].hash in hashes)
      && after.catalogue <= st.catalogue
      && (forall g :: g !in hashes ==> Capture(after.catalogue, g) == Capture(st.catalogue, g))
    decreases |hashes|
  {
    hide Capture, RemoveOne, HasTorrent;
    if hashes != [] {
      var rest, h := hashes[..|hashes| - 1], hashes[|hashes| - 1];
      BatchCaptures(cfg, st, rest, mechanism, reason, now);
      var (mid, ids) := RemoveAll(cfg, st, rest, mechanism, reason, now).value;
      assert h !in rest;
      RemoveOneAnswers(cfg, st.catalogue, |st.snapshots|, mid, h, mechanism, reason, now);
      RemoveOneFrame(cfg, mid, h, mechanism, reason, now);
      var (after, last) := RemoveOne(cfg, mid, h, mechanism, reason, now).value;
      forall j | 0 <= j < |ids| ensures Answered(st.catalogue, |st.snapshots|, after, hashes[j], mechanism, ids[j]) {
        assert Answered(st.catalogue, |st.snapshots|, mid, rest[j], mechanism, ids[j]);
        StillNoTorrent(mid.catalogue, after.catalogue, rest[j]);
      }
    }
  }

  lemma StillNoTorrent(cat: Catalogue, after: Catalogue, h: Hash)
    requires after <= cat && !HasTorrent(cat, h)
    ensures !HasTorrent(after, h)
  {
  }

  ghost predicate Increasing(hashes: seq<Hash>) {
    forall i, j :: 0 <= i < j < |hashes| ==> hashes[i] < hashes[j]
  }

  lemma {:induction false} InsertKeepsOrder(h: Hash, sorted: seq<Hash>)
    requires Increasing(sorted) && h !in sorted
    ensures Increasing(InsertHash(h, sorted))
    ensures forall x :: x in InsertHash(h, sorted) <==> x == h || x in sorted
    decreases |sorted|
  {
    if sorted != [] && h > sorted[0] {
      InsertKeepsOrder(h, sorted[1..]);
      var r := InsertHash(h, sorted[1..]);
      forall i | 0 <= i < |r| ensures sorted[0] < r[i] {
        assert r[i] in r;
      }
      assert forall x :: x in sorted <==> x == sorted[0] || x in sorted[1..];
    }
  }

  /** The batch is processed in increasing order and loses no hash. */
  lemma {:induction false} SortIncreasing(hashes: seq<Hash>)
    requires Distinct(hashes)
    ensures Increasing(SortHashes(hashes))
    ensures forall x :: x in SortHashes(hashes) <==> x in hashes
    decreases |hashes|
  {
    if hashes != [] {
      SortIncreasing(hashes[1..]);
      assert hashes[0] !in hashes[1..];
      InsertKeepsOrder(hashes[0], SortHashes(hashes[1..]));
    }
  }

  /** Whatever happens between a removal and a restore of it that answers true, the rows of
      all ten tables for that hash are again exactly those from before the removal. */
  lemma RestoreUndoesRemoval(cfg: Config, st: State, c: Removal, j: int, ops: seq<Op>, r: Restoration)
    requires Sound(st) && RemoveBatch(cfg, st, c).1.Ok? && forall op :: op in ops ==> Allowed(op)
    requires 0 <= j < |RemoveBatch(cfg, st, c).1.value|
    requires var id := RemoveBatch(cfg, st, c).1.value[j]; id >= |st.snapshots| && r.id == id + 1
    requires Restore(cfg, Run(cfg, RemoveBatch(cfg, st, c).0, ops), r).1 == Ok(true)
    ensures |SortHashes(c.hashes)| == |RemoveBatch(cfg, st, c).1.value|
    ensures var after, h := Restore(cfg, Run(cfg, RemoveBatch(cfg, st, c).0, ops), r).0, SortHashes(c.hashes)[j];
      forall t :: t in TABLES ==> RowsOf(after.catalogue, t, h) == RowsOf(st.catalogue, t, h)
  {
    hide RemoveAll, Run, Sound, Restore, RowsOf, Allowed;
    var hashes := SortHashes(c.hashes);
    SortIncreasing(c.hashes);
    BatchCaptures(cfg, st, hashes, c.mechanism, c.reason, c.now);
    RemoveAllSound(cfg, st, hashes, c.mechanism, c.reason, c.now);
    var st1 := RemoveBatch(cfg, st, c).0;
    RunSound(cfg, st1, ops);
    var st2 := Run(cfg, st1, ops);
    assert SnapshotKept(st1.snapshots[r.id - 1], st2.snapshots[r.id - 1]);
    RestoreExact(cfg, st2, r);
  }

  /** A removal that is restored at once leaves the whole catalogue as it was. */
  lemma RemoveRestoreIsIdentity(cfg: Config, st: State, h: Hash, mechanism: Mechanism, reason: string, now: int,
      r: Restoration)
    requires Sound(st) && HasTorrent(st.catalogue, h) && r.id == |st.snapshots| + 1
    requires Restore(cfg, RemovedState(cfg, st, h, mechanism, reason, now), r).1 == Ok(true)
    ensures Restore(cfg, RemovedState(cfg, st, h, mechanism, reason, now), r).0.catalogue == st.catalogue
  {
    hide RestoreTables, HasTorrent, MayRestore, WellFormed;
    NewRemovalSound(cfg, st, h, mechanism, reason, now);
    var st1 := RemovedState(cfg, st, h, mechanism, reason, now);
    var after := Restore(cfg, st1, r).0.catalogue;
    CaptureShaped(st.catalogue, h);
    CascadeRemovesAll(st.catalogue, h);
    CascadeWellFormed(st.catalogue, h);
    RestoredRowsExact(st1.catalogue, h, st1.snapshots[|st.snapshots|].payload, r.regenerate);
    SameRowsSameCatalogue(st.catalogue, after, h);
  }

  lemma SameRowsSameCatalogue(cat: Catalogue, after: Catalogue, h: Hash)
    requires WellFormed(cat)
    requires TorrentSources in Capture(cat, h) && RestoredSoFar(Cascade(cat, h), after, TABLES, h, Capture(cat, h))
    ensures after == cat
  {
    var p := Capture(cat, h);
    forall t ensures t in TABLES { EveryTable(t); }
    forall r | r in cat ensures r in after {
      if r.Child? && r.hash == h {
        assert r in p[r.table];
        assert r in TableRows(after, r.table, h);
      } else {
        assert r in Cascade(cat, h);
      }
    }
    forall r | r in after ensures r in cat {
      if r !in Cascade(cat, h) {
        assert r.Child? ==> r in TableRows(after, r.table, h);
      }
    }
  }

  /** A removal by any other mechanism than blocking and classifier deletion can never be
      restored, whatever happens later. */
  lemma OtherMechanismNeverRestored(cfg: Config, st: State, c: Removal, j: int, ops: seq<Op>, r: Restoration)
    requires Sound(st) && RemoveBatch(cfg, st, c).1.Ok? && forall op :: op in ops ==> Allowed(op)
    requires c.mechanism !in {Blocking, ClassifierDelete}
    requires 0 <= j < |RemoveBatch(cfg, st, c).1.value|
    requires var id := RemoveBatch(cfg, st, c).1.value[j]; id >= |st.snapshots| && r.id == id + 1
    ensures Restore(cfg, Run(cfg, RemoveBatch(cfg, st, c).0, ops), r).1 != Ok(true)
  {
    hide RemoveAll, Run, Sound, RestoreTables, Allowed, ProtectedNow, HasTorrent;
    var hashes := SortHashes(c.hashes);
    SortIncreasing(c.hashes);
    BatchCaptures(cfg, st, hashes, c.mechanism, c.reason, c.now);
    RemoveAllSound(cfg, st, hashes, c.mechanism, c.reason, c.now);
    var st1 := RemoveBatch(cfg, st, c).0;
    RunSound(cfg, st1, ops);
    var st2, i := Run(cfg, st1, ops), r.id - 1;
    assert SnapshotKept(st1.snapshots[i], st2.snapshots[i]);
    assert st2.events[st1.snapshots[i].removedEvent] == st1.events[st1.snapshots[i].removedEvent];
  }

  /** Repeating a removal that has just committed is answered with the same snapshot and
      changes nothing, exactly within the retention window and for the two restorable
      mechanisms; otherwise it is refused. */
  lemma RepeatedRemoval(cfg: Config, st: State, h: Hash, mechanism: Mechanism, reason: string, now: int,
      again: Mechanism, later: int)
    requires Sound(st) && HasTorrent(st.catalogue, h) && RemoveOne(cfg, st, h, mechanism, reason, now).Ok?
    ensures var (after, i) := RemoveOne(cfg, st, h, mechanism, reason, now).value;
      var repeated := RemoveOne(cfg, after, h, again, reason, later);
      if later < now + cfg.retention && mechanism in {Blocking, ClassifierDelete} then repeated == Ok((after, i))
          else repeated.Err?
  {
    hide Capture, Oversized, RemovalGuard, HasTorrent, Cascade;
    var (after, i) := RemoveOne(cfg, st, h, mechanism, reason, now).value;
    CascadeRemovesAll(st.catalogue, h);
    assert Retries(after, i, h, reason);
  }

  // ---------------------------------------------------------------------- the budget

  function PayloadSum(snaps: seq<Snapshot>): nat {
    if snaps == [] then 0 else PayloadSum(snaps[..|snaps| - 1]) + snaps[|snaps| - 1].payloadBytes
  }

  /** The budget is exactly what is retained, in any state, and within its caps. */
  ghost predicate BudgetExact(cfg: Config, st: State) {
    && st.usedBytes == PayloadSum(st.snapshots) && st.count == |st.snapshots|
    && st.usedBytes <= cfg.maxPayloadBytes && st.count <= cfg.maxSnapshots
  }

  lemma {:induction false} SumIgnoresState(a: seq<Snapshot>, b: seq<Snapshot>)
    requires |a| == |b| && forall i :: 0 <= i < |a| ==> a[i].payloadBytes == b[i].payloadBytes
    ensures PayloadSum(a) == PayloadSum(b)
    decreases |a|
  {
    if a != [] { SumIgnoresState(a[..|a| - 1], b[..|b| - 1]); }
  }

  /** An accepted removal charges its own payload once, a repeated one nothing. */
  lemma RemoveOneBudget(cfg: Config, st: State, h: Hash, mechanism: Mechanism, reason: string, now: int)
    requires BudgetExact(cfg, st) && RemoveOne(cfg, st, h, mechanism, reason, now).Ok?
    ensures BudgetExact(cfg, RemoveOne(cfg, st, h, mechanism, reason, now).value.0)
  {
    hide Oversized, RemovalGuard, HasTorrent, RemovalReceipt, Capture, Cascade;
    var after := RemoveOne(cfg, st, h, mechanism, reason, now).value.0;
    if |after.snapshots| > |st.snapshots| {
      assert after.snapshots[..|after.snapshots| - 1] == st.snapshots;
    }
  }

  lemma {:induction false} RemoveAllBudget(cfg: Config, st: State, hashes: seq<Hash>, mechanism: Mechanism,
      reason: string, now: int)
    requires BudgetExact(cfg, st) && RemoveAll(cfg, st, hashes, mechanism, reason, now).Ok?
    ensures BudgetExact(cfg, RemoveAll(cfg, st, hashes, mechanism, reason, now).value.0)
    decreases |hashes|
  {
    hide RemoveOne, BudgetExact;
    if hashes != [] {
      RemoveAllBudget(cfg, st, hashes[..|hashes| - 1], mechanism, reason, now);
      RemoveOneBudget(cfg, RemoveAll(cfg, st, hashes[..|hashes| - 1], mechanism, reason, now).value.0,
          hashes[|hashes| - 1], mechanism, reason, now);
    }
  }

  lemma NextBudget(cfg: Config, st: State, op: Op)
    requires BudgetExact(cfg, st)
    ensures BudgetExact(cfg, Next(cfg, st, op))
  {
    hide RemoveAll, RestoreTables, PayloadSum, MayRestore;
    match op
    case Remove(c) =>
      if RemoveBatch(cfg, st, c).1.Ok? { RemoveAllBudget(cfg, st, SortHashes(c.hashes), c.mechanism, c.reason, c.now); }
    case RestoreOp(c) => SumIgnoresState(Restore(cfg, st, c).0.snapshots, st.snapshots);
    case _ =>
  }

  lemma {:induction false} RunBudget(cfg: Config, st: State, ops: seq<Op>)
    requires BudgetExact(cfg, st)
    ensures BudgetExact(cfg, Run(cfg, st, ops))
    decreases |ops|
  {
    hide Next, BudgetExact;
    if ops != [] {
      NextBudget(cfg, st, ops[0]);
      RunBudget(cfg, Next(cfg, st, ops[0]), ops[1..]);
    }
  }

  /** In every reachable state the recovery budget equals the retained payload and the number
      of retained snapshots, and never exceeds its caps. */
  lemma BudgetIsWhatIsRetained(cfg: Config, st: State, ops: seq<Op>)
    requires Initial(st) && cfg.maxPayloadBytes > 0 && cfg.maxSnapshots > 0
    ensures BudgetExact(cfg, Run(cfg, st, ops))
  {
    hide Run;
    RunBudget(cfg, st, ops);
  }

  // ------------------------------------------------------------------- the exact filter

  /** A removed snapshot is the newest of its hash and its tombstone is the current verdict. */
  ghost predicate RemovedIsNewest(st: State) {
    && (forall i, j :: 0 <= i < j < |st.snapshots| && st.snapshots[i].hash == st.snapshots[j].hash ==>
        st.snapshots[i].state == Restored)
    && (forall i :: 0 <= i < |st.snapshots| && st.snapshots[i].state == Removed ==>
          st.snapshots[i].hash in st.verdicts && st.verdicts[st.snapshots[i].hash].verdict == Tombstoned)
  }

  lemma RemoveOneNewest(cfg: Config, st: State, h: Hash, mechanism: Mechanism, reason: string, now: int)
    requires RemovedIsNewest(st) && RemoveOne(cfg, st, h, mechanism, reason, now).Ok?
    ensures RemovedIsNewest(RemoveOne(cfg, st, h, mechanism, reason, now).value.0)
  {
    hide Oversized, HasTorrent, RemovalReceipt, Capture, Cascade;
  }

  lemma {:induction false} RemoveAllNewest(cfg: Config, st: State, hashes: seq<Hash>, mechanism: Mechanism,
      reason: string, now: int)
    requires RemovedIsNewest(st) && RemoveAll(cfg, st, hashes, mechanism, reason, now).Ok?
    ensures RemovedIsNewest(RemoveAll(cfg, st, hashes, mechanism, reason, now).value.0)
    decreases |hashes|
  {
    hide RemoveOne, RemovedIsNewest;
    if hashes != [] {
      RemoveAllNewest(cfg, st, hashes[..|hashes| - 1], mechanism, reason, now);
      RemoveOneNewest(cfg, RemoveAll(cfg, st, hashes[..|hashes| - 1], mechanism, reason, now).value.0,
          hashes[|hashes| - 1], mechanism, reason, now);
    }
  }

  lemma RestoreNewest(cfg: Config, st: State, c: Restoration)
    requires RemovedIsNewest(st)
    ensures RemovedIsNewest(Restore(cfg, st, c).0)
  {
    hide RestoreTables, RemovalReceipt;
  }

  lemma NextNewest(cfg: Config, st: State, op: Op)
    requires RemovedIsNewest(st) && !op.ForeignVerdict?
    ensures RemovedIsNewest(Next(cfg, st, op))
  {
    hide RemoveAll, Restore;
    match op
    case Remove(c) =>
      if RemoveBatch(cfg, st, c).1.Ok? { RemoveAllNewest(cfg, st, SortHashes(c.hashes), c.mechanism, c.reason, c.now); }
    case RestoreOp(c) => RestoreNewest(cfg, st, c);
    case _ =>
  }

  lemma {:induction false} RunNewest(cfg: Config, st: State, ops: seq<Op>)
    requires RemovedIsNewest(st) && forall op :: op in ops ==> !op.ForeignVerdict?
    ensures RemovedIsNewest(Run(cfg, st, ops))
    decreases |ops|
  {
    hide Next, RemovedIsNewest;
    if ops != [] {
      NextNewest(cfg, st, ops[0]);
      RunNewest(cfg, Next(cfg, st, ops[0]), ops[1..]);
    }
  }

  /** If only RemoveBatch and Restore write verdicts, a hash has at most one removed snapshot,
      it is the newest one, and while it exists the hash never passes the filter. */
  lemma RemovedStaysBlocked(cfg: Config, st: State, ops: seq<Op>, i: int, bloomKept: bool)
    requires Initial(st) && forall op :: op in ops ==> !op.ForeignVerdict?
    requires var now := Run(cfg, st, ops); 0 <= i < |now.snapshots| && now.snapshots[i].state == Removed
    ensures var now := Run(cfg, st, ops);
      var h := now.snapshots[i].hash;
      && NewestSnapshot(now.snapshots, h) == Some(i)
      && (forall j :: 0 <= j < |now.snapshots| && now.snapshots[j].hash == h && now.snapshots[j].state == Removed ==>
          j == i)
      && !Passes(now, h, bloomKept)
  {
    hide Run;
    RunNewest(cfg, st, ops);
    var now := Run(cfg, st, ops);
    var newest := NewestSnapshot(now.snapshots, now.snapshots[i].hash);
    assert newest.Some?;
  }
}
