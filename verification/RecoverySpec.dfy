/**
Catalogue recovery: what RemoveBatch and Restore do to the catalogue, the retained
snapshots, the recovery budget and the verdict ledger, as functions on one value.
*/
module RecoverySpec {
  import opened Options

  type Hash = nat

  datatype Table =
    | Torrents | TorrentSources | TorrentsTorrentSources | TorrentFiles | TorrentPieces
    | TorrentHints | TorrentTags | TorrentContents | TorrentTrackerSeeds | SyncClaims

  const TABLES: seq<Table> := [Torrents, TorrentSources, TorrentsTorrentSources, TorrentFiles, TorrentPieces,
                               TorrentHints, TorrentTags, TorrentContents, TorrentTrackerSeeds, SyncClaims]
  const MAX_BATCH := 32
  const MAX_FILTER := 1024

  /** A row of one torrent, or a source definition shared between torrents.  `link` is the
      source key of a torrents_torrent_sources row; `body` is every other column. */
  datatype Row = Child(table: Table, hash: Hash, link: nat, body: nat) | Shared(key: nat, body: nat)

  type Catalogue = set<Row>
  type Payload = map<Table, set<Row>>

  predicate HasTorrent(cat: Catalogue, h: Hash) {
    exists r :: r in cat && r.Child? && r.table == Torrents && r.hash == h
  }

  function TableRows(cat: Catalogue, t: Table, h: Hash): set<Row> {
    set r | r in cat && r.Child? && r.table == t && r.hash == h
  }

  function LinkedKeys(cat: Catalogue, h: Hash): set<nat> {
    set r | r in TableRows(cat, TorrentsTorrentSources, h) :: r.link
  }

  function SharedRows(cat: Catalogue, keys: set<nat>): set<Row> {
    set r | r in cat && r.Shared? && r.key in keys
  }

  /** The rows that the removal query of one table selects for a hash. */
  function RowsOf(cat: Catalogue, t: Table, h: Hash): set<Row> {
    if t == TorrentSources then SharedRows(cat, LinkedKeys(cat, h)) else TableRows(cat, t, h)
  }

  /** The foreign keys: no child without its torrent, no link without its source. */
  ghost predicate WellFormed(cat: Catalogue) {
    && (forall r :: r in cat && r.Child? ==> r.table != TorrentSources && HasTorrent(cat, r.hash))
    && (forall r :: r in cat && r.Child? && r.table == TorrentsTorrentSources ==>
        exists s :: s in cat && s.Shared? && s.key == r.link)
  }

  function CaptureTables(cat: Catalogue, h: Hash, tables: seq<Table>): Payload {
    map t | t in tables :: RowsOf(cat, t, h)
  }

  /** The rows of a hash in all ten tables. */
  function Capture(cat: Catalogue, h: Hash): Payload {
    CaptureTables(cat, h, TABLES)
  }

  /** delete from torrents where info_hash = h, with its cascades. */
  function Cascade(cat: Catalogue, h: Hash): Catalogue {
    set r | r in cat && !(r.Child? && r.hash == h)
  }

  // ----------------------------------------------------------------- ledger and state

  datatype Verdict = Active | Suspect | Quarantined | Blacklisted | Tombstoned | RestoredVerdict
  datatype Mechanism =
    | ClassifierDelete | ContentFilterMechanism | CrawlerDrop | JunkPurge | Retention
    | Blocking | Csam | Operator | Liveness
  datatype Transition = ToRemoved | ToRestored
  datatype Proof = Receipt(snapshot: int, transition: Transition) | OtherProof

  datatype VerdictEvent = VerdictEvent(hash: Hash, verdict: Verdict, mechanism: Mechanism, proof: Proof)
  datatype VerdictState = VerdictState(verdict: Verdict, mechanism: Mechanism)

  datatype SnapshotState = Removed | Restored

  /** A retained snapshot; its identifier is its position plus one. */
  datatype Snapshot = Snapshot(
    hash: Hash,
    payload: Payload,
    schema: nat,
    state: SnapshotState,
    reason: string,
    payloadBytes: nat,
    createdAt: int,
    expiresAt: int,
    removedEvent: int,
    restoredEvent: Option<int>)

  /** What other subsystems say about hashes right now. */
  datatype Guards = Guards(
    quarantined: set<Hash>,
    labelled: set<Hash>,
    privateLabels: set<Hash>,
    qbPrivate: set<Hash>,
    nativePrivate: set<Hash>,
    hinted: set<Hash>,
    claimed: set<Hash>,
    protectedTags: set<Hash>,
    privacyTags: set<Hash>,
    oversizedTags: set<Hash>)

  datatype State = State(
    catalogue: Catalogue,
    snapshots: seq<Snapshot>,
    events: seq<VerdictEvent>,
    verdicts: map<Hash, VerdictState>,
    usedBytes: int,
    count: int,
    guards: Guards,
    schema: nat,
    cascadeKnown: bool)

  datatype Config = Config(
    enabled: bool,
    retention: int,
    maxPayloadBytes: int,
    maxSnapshotBytes: int,
    maxSnapshots: int,
    maxRows: int,
    tableBytes: set<Row> -> nat,
    bodyBytes: Payload -> nat)

  datatype Error = Disabled | Malformed | Capacity | ExpiredWindow | Conflict | Protected | NotFound

  datatype Result<+T> = Ok(value: T) | Err(error: Error)

  /** The last of a list that belongs to a hash. */
  function LastOf<T>(items: seq<T>, hashOf: T -> Hash, h: Hash): (r: Option<int>)
    ensures r.Some? ==> 0 <= r.value < |items| && hashOf(items[r.value]) == h && forall j :: r.value < j < |items| ==>
      hashOf(items[j]) != h
    ensures r.None? ==> forall j :: 0 <= j < |items| ==> hashOf(items[j]) != h
  {
    if items == [] then None
    else if hashOf(items[|items| - 1]) == h then Some(|items| - 1)
    else LastOf(items[..|items| - 1], hashOf, h)
  }

  /** The newest verdict event of a hash. */
  function LastEvent(events: seq<VerdictEvent>, h: Hash): (r: Option<int>)
    ensures r.Some? ==> 0 <= r.value < |events| && events[r.value].hash == h && forall j :: r.value < j < |events| ==>
      events[j].hash != h
    ensures r.None? ==> forall j :: 0 <= j < |events| ==> events[j].hash != h
  {
    LastOf(events, (e: VerdictEvent) => e.hash, h)
  }

  /** The newest snapshot of a hash, in any state. */
  function NewestSnapshot(snaps: seq<Snapshot>, h: Hash): (r: Option<int>)
    ensures r.Some? ==> 0 <= r.value < |snaps| && snaps[r.value].hash == h && forall j :: r.value < j < |snaps| ==>
      snaps[j].hash != h
    ensures r.None? ==> forall j :: 0 <= j < |snaps| ==> snaps[j].hash != h
  {
    LastOf(snaps, (s: Snapshot) => s.hash, h)
  }

  // ------------------------------------------------------------------------- removal

  predicate ProtectedNow(st: State, h: Hash) {
    h in st.guards.quarantined || h in st.guards.labelled || h in st.guards.qbPrivate
  }

  predicate VerdictBlocks(st: State, h: Hash) {
    h in st.verdicts && st.verdicts[h].verdict in {Quarantined, Blacklisted, Tombstoned}
  }

  /** `protected` before a removal. */
  function RemovalGuard(st: State, h: Hash): Option<Error> {
    if ProtectedNow(st, h) then Some(Protected)
    else if h in st.guards.nativePrivate || h in st.guards.hinted || h in st.guards.claimed || VerdictBlocks(st, h)
        then Some(Protected)
    else if h in st.guards.oversizedTags then Some(Capacity)
    else if h in st.guards.protectedTags then Some(Protected)
    else None
  }

  /** The snapshot of a committed removal that a repeated call may answer with. */
  predicate Retries(st: State, i: int, h: Hash, reason: string) {
    && 0 <= i < |st.snapshots|
    && st.snapshots[i].hash == h && st.snapshots[i].state == Removed && st.snapshots[i].reason == reason
    && LastEvent(st.events, h) == Some(st.snapshots[i].removedEvent)
  }

  function LastRetry(st: State, n: int, h: Hash, reason: string): (r: Option<int>)
    ensures r.Some? ==> 0 <= r.value < n && Retries(st, r.value, h, reason) && forall j :: r.value < j < n ==>
      !Retries(st, j, h, reason)
    ensures r.None? ==> forall j :: 0 <= j < n ==> !Retries(st, j, h, reason)
    decreases n
  {
    if n <= 0 then None else if Retries(st, n - 1, h, reason) then Some(n - 1) else LastRetry(st, n - 1, h, reason)
  }

  /** currentReceipt for a removed snapshot: its own verdict is the newest and bound to it. */
  predicate RemovalReceipt(st: State, i: int) {
    && 0 <= i < |st.snapshots| && st.snapshots[i].state == Removed
    && var s := st.snapshots[i];
    && s.hash in st.verdicts && 0 <= s.removedEvent < |st.events|
    && LastEvent(st.events, s.hash) == Some(s.removedEvent)
    && var e := st.events[s.removedEvent];
    && e.hash == s.hash && e.proof == Receipt(i + 1, ToRemoved)
    && st.verdicts[s.hash] == VerdictState(e.verdict, e.mechanism)
    && e.verdict == Tombstoned && e.mechanism in {Blocking, ClassifierDelete}
  }

  function RowTotal(p: Payload, tables: seq<Table>): nat {
    if tables == [] then 0
        else RowTotal(p, tables[..|tables| - 1]) + if tables[|tables| - 1] in p then |p[tables[|tables| - 1]]| else 0
  }

  function ByteTotal(tableBytes: set<Row> -> nat, p: Payload, tables: seq<Table>): nat {
    if tables == [] then 0
    else ByteTotal(tableBytes, p, tables[..|tables| - 1]) + if tables[|tables| - 1] in p
        then tableBytes(p[tables[|tables| - 1]]) else 0
  }

  /** Too many rows, or too many bytes by the estimate taken before marshalling. */
  predicate Oversized(cfg: Config, p: Payload) {
    RowTotal(p, TABLES) > cfg.maxRows || ByteTotal(cfg.tableBytes, p, TABLES) > cfg.maxSnapshotBytes
  }

  function NewSnapshot(cfg: Config, st: State, h: Hash, reason: string, now: int): Snapshot {
    var p := Capture(st.catalogue, h);
    Snapshot(h, p, st.schema, Removed, reason, cfg.bodyBytes(p), now, now + cfg.retention, |st.events|, None)
  }

  function RecordVerdict(st: State, h: Hash, verdict: Verdict, mechanism: Mechanism, proof: Proof): State {
    st.(events := st.events + [VerdictEvent(h, verdict, mechanism, proof)],
        verdicts := st.verdicts[h := VerdictState(verdict, mechanism)])
  }

  /** The committed effect of one new removal. */
  function RemovedState(cfg: Config, st: State, h: Hash, mechanism: Mechanism, reason: string, now: int): State {
    var s := NewSnapshot(cfg, st, h, reason, now);
    RecordVerdict(
      st.(catalogue := Cascade(st.catalogue, h), snapshots := st.snapshots + [s],
          usedBytes := st.usedBytes + s.payloadBytes, count := st.count + 1),
      h, Tombstoned, mechanism, Receipt(|st.snapshots| + 1, ToRemoved))
  }

  /** removeTx: the state afterwards and the snapshot's position. */
  function RemoveOne(cfg: Config, st: State, h: Hash, mechanism: Mechanism, reason: string, now: int): Result<(State,
      int)> {
    if !HasTorrent(st.catalogue, h) then
      var i := LastRetry(st, |st.snapshots|, h, reason);
      if i.None? then Err(Conflict)
      else if now >= st.snapshots[i.value].expiresAt then Err(ExpiredWindow)
      else if !RemovalReceipt(st, i.value) then Err(Conflict)
      else Ok((st, i.value))
    else
      var guard := RemovalGuard(st, h);
      if guard.Some? then Err(guard.value)
      else if !st.cascadeKnown then Err(Conflict) else
      var p := Capture(st.catalogue, h);
      var size := cfg.bodyBytes(p);
      if Oversized(cfg, p) then Err(Capacity)
      else if size > cfg.maxSnapshotBytes || size > cfg.maxPayloadBytes - st.usedBytes || st.count >= cfg.maxSnapshots
          then Err(Capacity)
      else Ok((RemovedState(cfg, st, h, mechanism, reason, now), |st.snapshots|))
  }

  /** The loop of RemoveBatch: the first refusal ends the whole batch. */
  function RemoveAll(cfg: Config, st: State, hashes: seq<Hash>, mechanism: Mechanism, reason: string,
      now: int): Result<(State, seq<int>)> {
    if hashes == [] then Ok((st, [])) else
    var first := RemoveAll(cfg, st, hashes[..|hashes| - 1], mechanism, reason, now);
    if first.Err? then Err(first.error) else
    var last := RemoveOne(cfg, first.value.0, hashes[|hashes| - 1], mechanism, reason, now);
    if last.Err? then Err(last.error) else Ok((last.value.0, first.value.1 + [last.value.1]))
  }

  /** sort.Slice over distinct hashes. */
  function InsertHash(h: Hash, sorted: seq<Hash>): seq<Hash> {
    if sorted == [] || h <= sorted[0] then [h] + sorted else [sorted[0]] + InsertHash(h, sorted[1..])
  }

  function SortHashes(hashes: seq<Hash>): seq<Hash> {
    if hashes == [] then [] else InsertHash(hashes[0], SortHashes(hashes[1..]))
  }

  predicate Distinct(hashes: seq<Hash>) {
    forall i, j :: 0 <= i < j < |hashes| ==> hashes[i] != hashes[j]
  }

  predicate Blank(s: string) {
    forall i :: 0 <= i < |s| ==> s[i] in {' ', '\t', '\n', '\r'}
  }

  /** A RemoveBatch call, with the outcomes of its two storage checks. */
  datatype Removal = Removal(hashes: seq<Hash>, mechanism: Mechanism, reason: string, now: int, storageBefore: bool,
      storageAfter: bool)

  function RemoveBatch(cfg: Config, st: State, c: Removal): (State, Result<seq<int>>) {
    if !cfg.enabled then (st, Err(Disabled))
    else if |c.hashes| == 0 || |c.hashes| > MAX_BATCH || Blank(c.reason) || |c.reason| > 1024 || c.now == 0
        || !Distinct(c.hashes) then (st, Err(Malformed))
    else if !c.storageBefore then (st, Err(Capacity)) else
    var r := RemoveAll(cfg, st, SortHashes(c.hashes), c.mechanism, c.reason, c.now);
    if r.Err? then (st, Err(r.error))
    else if !c.storageAfter then (st, Err(Capacity))
    else (r.value.0, Ok(r.value.1))
  }

  // ------------------------------------------------------------------------- restore

  /** A Restore call.  `regenerate` is the body the database really stores for an inserted
      record: generated columns are computed again. */
  datatype Restoration = Restoration(id: int, now: int, regenerate: Row -> nat, storageAfter: bool)

  function Stored(regenerate: Row -> nat, r: Row): Row {
    r.(body := regenerate(r))
  }

  function PayloadKeys(rows: set<Row>): set<nat> {
    set r | r in rows && r.Shared? :: r.key
  }

  /** restoreTable's insert: a shared source that is already there is left alone. */
  function InsertRows(cat: Catalogue, t: Table, rows: set<Row>, regenerate: Row -> nat): Catalogue {
    var present := PayloadKeys(set r | r in cat && r.Shared?);
    cat + (set r | r in rows && !(t == TorrentSources && r.Shared? && r.key in present) :: Stored(regenerate, r))
  }

  /** restoreTable's check that the table now holds exactly the captured rows. */
  predicate Matches(cat: Catalogue, t: Table, h: Hash, rows: set<Row>) {
    (if t == TorrentSources then SharedRows(cat, PayloadKeys(rows)) else TableRows(cat, t, h)) == rows
  }

  /** restoreTable: an empty table is skipped, a mismatch is a conflict. */
  function RestoreTable(cat: Catalogue, t: Table, h: Hash, rows: set<Row>, regenerate: Row -> nat): Option<Catalogue> {
    if rows == {} then Some(cat) else
    var after := InsertRows(cat, t, rows, regenerate);
    if Matches(after, t, h, rows) then Some(after) else None
  }

  function RestoreTables(cat: Catalogue, tables: seq<Table>, h: Hash, p: Payload,
      regenerate: Row -> nat): Option<Catalogue> {
    if tables == [] then Some(cat) else
    var t := tables[|tables| - 1];
    var first := RestoreTables(cat, tables[..|tables| - 1], h, p, regenerate);
    if first.None? || t !in p then None else RestoreTable(first.value, t, h, p[t], regenerate)
  }

  predicate MayRestore(cfg: Config, st: State, i: int, now: int)
    requires 0 <= i < |st.snapshots|
  {
    var s := st.snapshots[i];
    && s.state == Removed && now < s.expiresAt && st.cascadeKnown && !ProtectedNow(st, s.hash)
    && RemovalReceipt(st, i) && !HasTorrent(st.catalogue, s.hash) && s.schema == st.schema
  }

  function RestoreRefusal(cfg: Config, st: State, c: Restoration): Option<Error> {
    var i := c.id - 1;
    if !cfg.enabled then Some(Disabled)
    else if c.id <= 0 || c.now == 0 then Some(Malformed)
    else if i >= |st.snapshots| then Some(NotFound)
    else if st.snapshots[i].state == Restored then None
    else if c.now >= st.snapshots[i].expiresAt then Some(ExpiredWindow)
    else if !st.cascadeKnown then Some(Conflict)
    else if ProtectedNow(st, st.snapshots[i].hash) then Some(Protected)
    else if !MayRestore(cfg, st, i, c.now) then Some(Conflict)
    else None
  }

  function RestoredState(st: State, i: int, cat: Catalogue): State
    requires 0 <= i < |st.snapshots|
  {
    var s := st.snapshots[i];
    RecordVerdict(
      st.(catalogue := cat, snapshots := st.snapshots[i := s.(state := Restored, restoredEvent := Some(|st.events|))]),
      s.hash, RestoredVerdict, Operator, Receipt(i + 1, ToRestored))
  }

  function Restore(cfg: Config, st: State, c: Restoration): (State, Result<bool>) {
    var refusal := RestoreRefusal(cfg, st, c);
    if refusal.Some? then (st, Err(refusal.value)) else
    var i := c.id - 1;
    var s := st.snapshots[i];
    if s.state == Restored then (st, Ok(false)) else
    var cat := RestoreTables(st.catalogue, TABLES, s.hash, s.payload, c.regenerate);
    if cat.None? then (st, Err(Conflict))
    else if !c.storageAfter then (st, Err(Capacity))
    else (RestoredState(st, i, cat.value), Ok(true))
  }

  // ------------------------------------------------------------------- the exact filter

  /** The newest restoration is still bound, and nothing private or quarantined overrides it. */
  predicate RestorationValid(st: State, i: int)
    requires 0 <= i < |st.snapshots|
  {
    var s := st.snapshots[i];
    && s.restoredEvent.Some? && 0 <= s.restoredEvent.value < |st.events|
    && LastEvent(st.events, s.hash) == s.restoredEvent
    && var e := st.events[s.restoredEvent.value];
    && s.hash in st.verdicts && st.verdicts[s.hash] == VerdictState(RestoredVerdict, Operator)
    && e.verdict == RestoredVerdict && e.mechanism == Operator && e.proof == Receipt(i + 1, ToRestored)
    && s.hash !in st.guards.quarantined && s.hash !in st.guards.qbPrivate && s.hash !in st.guards.privateLabels
    && s.hash !in st.guards.nativePrivate && s.hash !in st.guards.privacyTags
  }

  /** What the recovery layer decides about one hash, given what the bloom filter kept. */
  predicate Passes(st: State, h: Hash, bloomKept: bool) {
    var i := NewestSnapshot(st.snapshots, h);
    if i.None? then bloomKept
    else st.snapshots[i.value].state == Restored && RestorationValid(st, i.value)
  }
}
