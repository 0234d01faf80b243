/** What a removal has checked, what a restore has checked, and what both write, exactly. */
module RemovalLaws {
  import opened Options
  import opened RecoverySpec
  import opened CatalogueSafety
  import opened CatalogueRuns

  // --------------------------------------------------------------------------- the guards

  /** Somebody else has a claim on the torrent, or says it is private or protected. */
  ghost predicate Claimed(g: Guards, h: Hash) {
    || h in g.quarantined || h in g.labelled || h in g.qbPrivate || h in g.nativePrivate || h in g.hinted
    || h in g.claimed || h in g.protectedTags || h in g.oversizedTags
  }

  /** Its current verdict already keeps it out. */
  ghost predicate KeptOut(st: State, h: Hash) {
    && h in st.verdicts
    && var v := st.verdicts[h].verdict;
    v == Quarantined || v == Blacklisted || v == Tombstoned
  }

  lemma UnguardedExactly(st: State, h: Hash)
    ensures RemovalGuard(st, h).None? <==> !Claimed(st.guards, h) && !KeptOut(st, h)
    ensures RemovalGuard(st, h).Some? ==> RemovalGuard(st, h).value in {Protected, Capacity}
  {
  }

  // ----------------------------------------------------------------------------- the caps

  function AllRows(p: Payload): nat
    requires forall t :: t in p
  {
    |p[Torrents]| + |p[TorrentSources]| + |p[TorrentsTorrentSources]| + |p[TorrentFiles]| + |p[TorrentPieces]|
    + |p[TorrentHints]| + |p[TorrentTags]| + |p[TorrentContents]| + |p[TorrentTrackerSeeds]| + |p[SyncClaims]|
  }

  function AllBytes(bytes: set<Row> -> nat, p: Payload): nat
    requires forall t :: t in p
  {
    bytes(p[Torrents]) + bytes(p[TorrentSources]) + bytes(p[TorrentsTorrentSources]) + bytes(p[TorrentFiles])
    + bytes(p[TorrentPieces]) + bytes(p[TorrentHints]) + bytes(p[TorrentTags]) + bytes(p[TorrentContents])
    + bytes(p[TorrentTrackerSeeds]) + bytes(p[SyncClaims])
  }

  lemma TotalNext(bytes: set<Row> -> nat, p: Payload, tables: seq<Table>, t: Table)
    requires t in p
    ensures RowTotal(p, tables + [t]) == RowTotal(p, tables) + |p[t]|
    ensures ByteTotal(bytes, p, tables + [t]) == ByteTotal(bytes, p, tables) + bytes(p[t])
  {
    assert (tables + [t])[..|tables|] == tables;
  }

  lemma TotalsAreSums(bytes: set<Row> -> nat, p: Payload)
    requires forall t :: t in p
    ensures RowTotal(p, TABLES) == AllRows(p) && ByteTotal(bytes, p, TABLES) == AllBytes(bytes, p)
  {
    hide RowTotal, ByteTotal;
    NothingTotal(bytes, p);
    TotalNext(bytes, p, [], Torrents);
    TotalNext(bytes, p, [Torrents], TorrentSources);
    FirstFive(bytes, p);
    TotalNext(bytes, p, FIVE, TorrentHints);
    TotalNext(bytes, p, FIVE + [TorrentHints], TorrentTags);
    TotalNext(bytes, p, FIVE + [TorrentHints] + [TorrentTags], TorrentContents);
    TotalNext(bytes, p, FIVE + [TorrentHints] + [TorrentTags] + [TorrentContents], TorrentTrackerSeeds);
    TotalNext(bytes, p, FIVE + [TorrentHints] + [TorrentTags] + [TorrentContents] + [TorrentTrackerSeeds], SyncClaims);
    assert FIVE + [TorrentHints] + [TorrentTags] + [TorrentContents] + [TorrentTrackerSeeds] + [SyncClaims] == TABLES;
  }

  const FIVE: seq<Table> := [Torrents, TorrentSources, TorrentsTorrentSources, TorrentFiles, TorrentPieces]

  lemma FirstFive(bytes: set<Row> -> nat, p: Payload)
    requires forall t :: t in p
    ensures RowTotal(p, FIVE) ==
      |p[Torrents]| + |p[TorrentSources]| + |p[TorrentsTorrentSources]| + |p[TorrentFiles]| + |p[TorrentPieces]|
    ensures ByteTotal(bytes, p, FIVE) ==
      bytes(p[Torrents]) + bytes(p[TorrentSources]) + bytes(p[TorrentsTorrentSources]) + bytes(p[TorrentFiles])
      + bytes(p[TorrentPieces])
  {
    hide RowTotal, ByteTotal;
    NothingTotal(bytes, p);
    TotalNext(bytes, p, [], Torrents);
    TotalNext(bytes, p, [] + [Torrents], TorrentSources);
    TotalNext(bytes, p, [] + [Torrents] + [TorrentSources], TorrentsTorrentSources);
    TotalNext(bytes, p, [] + [Torrents] + [TorrentSources] + [TorrentsTorrentSources], TorrentFiles);
    TotalNext(bytes, p, [] + [Torrents] + [TorrentSources] + [TorrentsTorrentSources] + [TorrentFiles], TorrentPieces);
    assert [] + [Torrents] + [TorrentSources] + [TorrentsTorrentSources] + [TorrentFiles] + [TorrentPieces] == FIVE;
  }

  lemma NothingTotal(bytes: set<Row> -> nat, p: Payload)
    ensures RowTotal(p, []) == 0 && ByteTotal(bytes, p, []) == 0
  {
  }

  /** The snapshot fits: its rows, its estimated and its real size, and what is left of the
      budget. */
  ghost predicate Fits(cfg: Config, st: State, p: Payload)
    requires forall t :: t in p
  {
    && AllRows(p) <= cfg.maxRows && AllBytes(cfg.tableBytes, p) <= cfg.maxSnapshotBytes
    && cfg.bodyBytes(p) <= cfg.maxSnapshotBytes && st.usedBytes + cfg.bodyBytes(p) <= cfg.maxPayloadBytes
    && st.count < cfg.maxSnapshots
  }

  lemma CapturesEveryTable(cat: Catalogue, h: Hash)
    ensures forall t :: t in Capture(cat, h)
  {
    forall t ensures t in Capture(cat, h) { EveryTable(t); }
  }

  // ------------------------------------------------------------------------------ removal

  /** A catalogued torrent is removed exactly when nobody claims it, no verdict keeps it out, the
      schema's cascades are known, and its snapshot fits. */
  lemma RemovedExactly(cfg: Config, st: State, h: Hash, mechanism: Mechanism, reason: string, now: int)
    requires HasTorrent(st.catalogue, h)
    ensures (forall t :: t in Capture(st.catalogue, h))
      && (RemoveOne(cfg, st, h, mechanism, reason, now).Ok? <==>
            !Claimed(st.guards, h) && !KeptOut(st, h) && st.cascadeKnown && Fits(cfg, st, Capture(st.catalogue, h)))
  {
    hide Capture, HasTorrent, RemovalGuard, RemovedState, RowTotal, ByteTotal, AllRows, AllBytes, Claimed, KeptOut;
    CapturesEveryTable(st.catalogue, h);
    UnguardedExactly(st, h);
    TotalsAreSums(cfg.tableBytes, Capture(st.catalogue, h));
  }

  /** What a new removal writes: the torrent's rows and no others are gone, one snapshot holds
      them for the retention, the budget is charged for it, and one tombstone is bound to it. */
  lemma RemovedEffect(cfg: Config, st: State, h: Hash, mechanism: Mechanism, reason: string, now: int)
    requires HasTorrent(st.catalogue, h) && RemoveOne(cfg, st, h, mechanism, reason, now).Ok?
    ensures var (after, i) := RemoveOne(cfg, st, h, mechanism, reason, now).value;
      && i == |st.snapshots| && |after.snapshots| == i + 1 && after.snapshots[..i] == st.snapshots
      && (forall r :: r in after.catalogue <==> r in st.catalogue && !(r.Child? && r.hash == h))
      && var s := after.snapshots[i];
      && s.hash == h && s.state == Removed && s.reason == reason && s.schema == st.schema && s.restoredEvent == None
      && s.createdAt == now && s.expiresAt == now + cfg.retention && s.removedEvent == |st.events|
      && s.payload == Capture(st.catalogue, h) && s.payloadBytes == cfg.bodyBytes(s.payload)
      && after.usedBytes == st.usedBytes + s.payloadBytes && after.count == st.count + 1
      && after.events == st.events + [VerdictEvent(h, Tombstoned, mechanism, Receipt(i + 1, ToRemoved))]
      && after.verdicts == st.verdicts[h := VerdictState(Tombstoned, mechanism)]
      && after.guards == st.guards && after.schema == st.schema && after.cascadeKnown == st.cascadeKnown
  {
    hide Capture, HasTorrent, RemovalGuard, Oversized;
  }

  /** A torrent that is gone is answered for only by a snapshot of that reason whose own
      tombstone is still the verdict, by a restorable mechanism and within its time. */
  lemma RepeatedMeans(cfg: Config, st: State, h: Hash, mechanism: Mechanism, reason: string, now: int)
    requires !HasTorrent(st.catalogue, h) && RemoveOne(cfg, st, h, mechanism, reason, now).Ok?
    ensures var (after, i) := RemoveOne(cfg, st, h, mechanism, reason, now).value;
      && after == st && 0 <= i < |st.snapshots|
      && var s := st.snapshots[i];
      && s.hash == h && s.reason == reason && s.state == Removed && now < s.expiresAt
      && 0 <= s.removedEvent < |st.events|
      && (forall j :: s.removedEvent < j < |st.events| ==> st.events[j].hash != h)
      && var e := st.events[s.removedEvent];
      && e.hash == h && e.verdict == Tombstoned && (e.mechanism == Blocking || e.mechanism == ClassifierDelete)
      && e.proof == Receipt(i + 1, ToRemoved)
      && h in st.verdicts && st.verdicts[h] == VerdictState(Tombstoned, e.mechanism)
  {
    hide HasTorrent, Capture;
  }

  /** It answers that way whenever it can: with the last removed snapshot of that hash and reason whose
      own event is the newest of the hash, if that one is within its time and still bound. */
  lemma RepeatedExactly(cfg: Config, st: State, h: Hash, mechanism: Mechanism, reason: string, now: int, i: int)
    requires !HasTorrent(st.catalogue, h)
    ensures RemoveOne(cfg, st, h, mechanism, reason, now) == Ok((st, i)) <==>
      && Repeats(st, i, h, reason) && (forall j :: i < j < |st.snapshots| ==> !Repeats(st, j, h, reason))
      && now < st.snapshots[i].expiresAt && StillBound(st, i)
  {
    hide HasTorrent, Capture, LastEvent, RemovalReceipt, StillBound;
    forall j ensures Repeats(st, j, h, reason) <==> Retries(st, j, h, reason) { RepeatsIsRetries(st, j, h, reason); }
    var found := LastRetry(st, |st.snapshots|, h, reason);
    if found.Some? { ReceiptExactly(st, found.value); }
  }

  ghost predicate Repeats(st: State, i: int, h: Hash, reason: string) {
    && 0 <= i < |st.snapshots|
    && var s := st.snapshots[i];
    && s.hash == h && s.state == Removed && s.reason == reason
    && 0 <= s.removedEvent < |st.events| && st.events[s.removedEvent].hash == h
    && forall j :: s.removedEvent < j < |st.events| ==> st.events[j].hash != h
  }

  lemma RepeatsIsRetries(st: State, i: int, h: Hash, reason: string)
    ensures Repeats(st, i, h, reason) <==> Retries(st, i, h, reason)
  {
    var last := LastEvent(st.events, h);
  }

  /** The states a batch goes through, one removal after another. */
  ghost predicate Chain(cfg: Config, states: seq<State>, hashes: seq<Hash>, ids: seq<int>, mechanism: Mechanism,
                        reason: string, now: int)
  {
    && |states| == |hashes| + 1 && |ids| == |hashes|
    && forall k :: 0 <= k < |hashes| ==>
         RemoveOne(cfg, states[k], hashes[k], mechanism, reason, now) == Ok((states[k + 1], ids[k]))
  }

  /** A batch is answered exactly by a chain of single removals, each starting where the one before
      it ended. */
  lemma {:induction false} BatchIsChain(cfg: Config, st: State, hashes: seq<Hash>, mechanism: Mechanism,
                                        reason: string, now: int, states: seq<State>, ids: seq<int>)
    requires Chain(cfg, states, hashes, ids, mechanism, reason, now) && states[0] == st
    ensures RemoveAll(cfg, st, hashes, mechanism, reason, now) == Ok((states[|hashes|], ids))
    decreases |hashes|
  {
    hide RemoveOne;
    if hashes != [] {
      var n := |hashes| - 1;
      BatchIsChain(cfg, st, hashes[..n], mechanism, reason, now, states[..|hashes|], ids[..n]);
      assert ids == ids[..n] + [ids[n]];
    }
  }

  lemma {:induction false} BatchHasChain(cfg: Config, st: State, hashes: seq<Hash>, mechanism: Mechanism,
                                         reason: string, now: int) returns (states: seq<State>)
    requires RemoveAll(cfg, st, hashes, mechanism, reason, now).Ok?
    ensures var done := RemoveAll(cfg, st, hashes, mechanism, reason, now).value;
      && Chain(cfg, states, hashes, done.1, mechanism, reason, now) && states[0] == st && states[|hashes|] == done.0
    decreases |hashes|
  {
    hide RemoveOne;
    states := [st];
    if hashes != [] {
      var n := |hashes| - 1;
      var before := BatchHasChain(cfg, st, hashes[..n], mechanism, reason, now);
      var last := RemoveOne(cfg, before[n], hashes[n], mechanism, reason, now).value;
      states := before + [last.0];
    }
  }

  /** A call is looked at exactly when recovery is on, it names one to 32 distinct hashes, a reason that is
      neither blank nor over 1024, a time, and there is storage; it succeeds exactly if the batch does
      and there is storage afterwards, and otherwise changes nothing. */
  lemma BatchExactly(cfg: Config, st: State, c: Removal)
    ensures var all := RemoveAll(cfg, st, SortHashes(c.hashes), c.mechanism, c.reason, c.now);
      && (RemoveBatch(cfg, st, c).1.Ok? <==>
            && cfg.enabled && c.now != 0 && c.storageBefore && c.storageAfter
            && 0 < |c.hashes| <= 32 && |c.reason| <= 1024
            && (forall i, j :: 0 <= i < j < |c.hashes| ==> c.hashes[i] != c.hashes[j])
            && (exists i :: 0 <= i < |c.reason| && c.reason[i] !in {' ', '\t', '\n', '\r'})
            && all.Ok?)
      && (RemoveBatch(cfg, st, c).1.Ok? ==> RemoveBatch(cfg, st, c) == (all.value.0, Ok(all.value.1)))
      && (RemoveBatch(cfg, st, c).1.Err? ==> RemoveBatch(cfg, st, c).0 == st)
  {
    hide RemoveAll, SortHashes;
  }

  /** One removal of a batch: the guards stay, and a snapshot it adds is of an unclaimed torrent. */
  lemma OneUnclaimed(cfg: Config, st: State, h: Hash, mechanism: Mechanism, reason: string, now: int)
    requires RemoveOne(cfg, st, h, mechanism, reason, now).Ok?
    ensures var after := RemoveOne(cfg, st, h, mechanism, reason, now).value.0;
      && after.guards == st.guards && |st.snapshots| <= |after.snapshots|
      && (forall i :: 0 <= i < |st.snapshots| ==> after.snapshots[i] == st.snapshots[i])
      && (forall i :: |st.snapshots| <= i < |after.snapshots| ==> !Claimed(st.guards, after.snapshots[i].hash))
  {
    hide RemoveOne, Claimed, HasTorrent, Capture, Fits, KeptOut;
    if HasTorrent(st.catalogue, h) {
      RemovedExactly(cfg, st, h, mechanism, reason, now);
      RemovedEffect(cfg, st, h, mechanism, reason, now);
      var after := RemoveOne(cfg, st, h, mechanism, reason, now).value.0;
      forall i | 0 <= i < |st.snapshots| ensures after.snapshots[i] == st.snapshots[i] {
        assert after.snapshots[..|st.snapshots|][i] == st.snapshots[i];
      }
    } else {
      RepeatedMeans(cfg, st, h, mechanism, reason, now);
    }
  }

  /** Every torrent a batch has removed was claimed by nobody when the batch began. */
  lemma {:induction false} BatchUnclaimed(cfg: Config, st: State, hashes: seq<Hash>, mechanism: Mechanism,
                                          reason: string, now: int)
    requires RemoveAll(cfg, st, hashes, mechanism, reason, now).Ok?
    ensures var after := RemoveAll(cfg, st, hashes, mechanism, reason, now).value.0;
      && |st.snapshots| <= |after.snapshots| && after.guards == st.guards
      && forall i :: |st.snapshots| <= i < |after.snapshots| ==> !Claimed(st.guards, after.snapshots[i].hash)
    decreases |hashes|
  {
    hide RemoveOne, Claimed;
    if hashes != [] {
      var rest, h := hashes[..|hashes| - 1], hashes[|hashes| - 1];
      BatchUnclaimed(cfg, st, rest, mechanism, reason, now);
      OneUnclaimed(cfg, RemoveAll(cfg, st, rest, mechanism, reason, now).value.0, h, mechanism, reason, now);
    }
  }

  /** The same of RemoveBatch, and what it takes for a batch to be looked at at all. */
  lemma RemovedBatchUnclaimed(cfg: Config, st: State, c: Removal)
    requires RemoveBatch(cfg, st, c).1.Ok?
    ensures var after := RemoveBatch(cfg, st, c).0;
      && cfg.enabled && 0 < |c.hashes| <= 32 && |c.reason| <= 1024 && c.now != 0 && c.storageBefore && c.storageAfter
      && (forall i, j :: 0 <= i < j < |c.hashes| ==> c.hashes[i] != c.hashes[j])
      && (exists i :: 0 <= i < |c.reason| && c.reason[i] !in {' ', '\t', '\n', '\r'})
      && |st.snapshots| <= |after.snapshots|
      && forall i :: |st.snapshots| <= i < |after.snapshots| ==> !Claimed(st.guards, after.snapshots[i].hash)
  {
    hide RemoveAll, Claimed;
    BatchUnclaimed(cfg, st, SortHashes(c.hashes), c.mechanism, c.reason, c.now);
  }

  // ------------------------------------------------------------------------------ restore

  /** The removal's own tombstone is still the newest verdict, by a restorable mechanism. */
  ghost predicate StillBound(st: State, i: int)
    requires 0 <= i < |st.snapshots|
  {
    var s := st.snapshots[i];
    && 0 <= s.removedEvent < |st.events| && s.hash in st.verdicts
    && (forall j :: s.removedEvent < j < |st.events| ==> st.events[j].hash != s.hash)
    && var e := st.events[s.removedEvent];
    && e.hash == s.hash && e.verdict == Tombstoned && (e.mechanism == Blocking || e.mechanism == ClassifierDelete)
    && e.proof == Receipt(i + 1, ToRemoved) && st.verdicts[s.hash] == VerdictState(Tombstoned, e.mechanism)
  }

  lemma ReceiptExactly(st: State, i: int)
    requires 0 <= i < |st.snapshots|
    ensures RemovalReceipt(st, i) <==> st.snapshots[i].state == Removed && StillBound(st, i)
  {
  }

  /** Restore answers true exactly for a removed snapshot within its time, whose tombstone is still
      bound, whose torrent is neither back nor quarantined, labelled or private to a client, under
      the same schema with known cascades, if every table comes back as captured and storage
      allows it. */
  lemma RestoredExactly(cfg: Config, st: State, c: Restoration)
    ensures Restore(cfg, st, c).1 == Ok(true) <==>
      && cfg.enabled && c.now != 0 && 0 < c.id <= |st.snapshots|
      && var s := st.snapshots[c.id - 1];
      && s.state == Removed && c.now < s.expiresAt && st.cascadeKnown && s.schema == st.schema
      && s.hash !in st.guards.quarantined && s.hash !in st.guards.labelled && s.hash !in st.guards.qbPrivate
      && StillBound(st, c.id - 1) && !HasTorrent(st.catalogue, s.hash)
      && RestoreTables(st.catalogue, TABLES, s.hash, s.payload, c.regenerate).Some? && c.storageAfter
    ensures Restore(cfg, st, c).1 != Ok(true) ==> Restore(cfg, st, c).0 == st
    ensures Restore(cfg, st, c).1 == Ok(false) ==>
      0 < c.id <= |st.snapshots| && st.snapshots[c.id - 1].state == Restored
  {
    hide RestoreTables, HasTorrent, RemovalReceipt, StillBound;
    if 0 < c.id <= |st.snapshots| { ReceiptExactly(st, c.id - 1); }
  }

  /** What it writes: the snapshot is restored, and one verdict says so and is bound to it. */
  lemma RestoredEffect(cfg: Config, st: State, c: Restoration)
    requires Restore(cfg, st, c).1 == Ok(true)
    ensures var after, i := Restore(cfg, st, c).0, c.id - 1;
      && 0 <= i < |st.snapshots| && |after.snapshots| == |st.snapshots|
      && after.snapshots == st.snapshots[i := st.snapshots[i].(state := Restored, restoredEvent := Some(|st.events|))]
      && after.events ==
           st.events + [VerdictEvent(st.snapshots[i].hash, RestoredVerdict, Operator, Receipt(i + 1, ToRestored))]
      && after.verdicts == st.verdicts[st.snapshots[i].hash := VerdictState(RestoredVerdict, Operator)]
      && after.usedBytes == st.usedBytes && after.count == st.count && after.guards == st.guards
  {
    hide RestoreTables, MayRestore;
  }

  // ------------------------------------------------------------------------------- filter

  /** A private or quarantined torrent is never let through by a restore. */
  ghost predicate Shut(g: Guards, h: Hash) {
    h in g.quarantined || h in g.qbPrivate || h in g.privateLabels || h in g.nativePrivate || h in g.privacyTags
  }

  /** Right after a restore of its newest snapshot, a hash passes whatever the bloom filter says,
      exactly unless it is private or quarantined. */
  lemma RestoredPasses(cfg: Config, st: State, c: Restoration, bloomKept: bool)
    requires Restore(cfg, st, c).1 == Ok(true)
    requires NewestSnapshot(st.snapshots, st.snapshots[c.id - 1].hash) == Some(c.id - 1)
    ensures var h := st.snapshots[c.id - 1].hash;
      Passes(Restore(cfg, st, c).0, h, bloomKept) <==> !Shut(st.guards, h)
  {
    hide RestoreTables, MayRestore, Restore;
    RestoredEffect(cfg, st, c);
    var after, i := Restore(cfg, st, c).0, c.id - 1;
    var h := st.snapshots[i].hash;
    assert after.snapshots[i].hash == h && forall j :: i < j < |after.snapshots| ==> after.snapshots[j].hash != h;
    assert NewestSnapshot(after.snapshots, h) == Some(i);
    assert LastEvent(after.events, h) == Some(|st.events|);
  }

  /** A hash without a snapshot passes as the bloom filter says.  One with a snapshot passes exactly
      if its newest one is restored, the restore's own verdict is still the newest and the current one,
      and the hash is neither private nor quarantined. */
  lemma PassesExactly(st: State, h: Hash, bloomKept: bool)
    ensures NewestSnapshot(st.snapshots, h).None? ==> (Passes(st, h, bloomKept) <==> bloomKept)
    ensures NewestSnapshot(st.snapshots, h).Some? ==>
      (Passes(st, h, bloomKept) <==> LetThrough(st, NewestSnapshot(st.snapshots, h).value))
  {
    var found := NewestSnapshot(st.snapshots, h);
    if found.Some? { var last := LastEvent(st.events, h); }
  }

  ghost predicate LetThrough(st: State, i: int)
    requires 0 <= i < |st.snapshots|
  {
    var s := st.snapshots[i];
    && s.state == Restored && s.restoredEvent.Some? && !Shut(st.guards, s.hash)
    && var n := s.restoredEvent.value;
    && 0 <= n < |st.events| && (forall j :: n < j < |st.events| ==> st.events[j].hash != s.hash)
    && st.events[n] == VerdictEvent(s.hash, RestoredVerdict, Operator, Receipt(i + 1, ToRestored))
    && s.hash in st.verdicts && st.verdicts[s.hash] == VerdictState(RestoredVerdict, Operator)
  }
}
