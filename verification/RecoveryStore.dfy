/**
The recovery store: RemoveBatch, Restore and Filter as the loops the source runs inside
one transaction each, proved against RecoverySpec.
*/
module RecoveryStore {
  import opened Options
  import opened RecoverySpec

  lemma {:induction false} TotalsGrow(tableBytes: set<Row> -> nat, p: Payload, tables: seq<Table>, n: int)
    requires 0 <= n <= |tables|
    ensures RowTotal(p, tables[..n]) <= RowTotal(p, tables)
    ensures ByteTotal(tableBytes, p, tables[..n]) <= ByteTotal(tableBytes, p, tables)
    decreases |tables|
  {
    if n < |tables| {
      TotalsGrow(tableBytes, p, tables[..|tables| - 1], n);
      assert tables[..|tables| - 1][..n] == tables[..n];
    } else {
      assert tables[..n] == tables;
    }
  }

  lemma CaptureNothing(cat: Catalogue, h: Hash)
    ensures CaptureTables(cat, h, []) == map[]
  {
  }

  lemma CaptureOneMore(cat: Catalogue, h: Hash, tables: seq<Table>, i: int)
    requires 0 <= i < |tables|
    ensures CaptureTables(cat, h, tables[..i + 1]) ==
      CaptureTables(cat, h, tables[..i])[tables[i] := RowsOf(cat, tables[i], h)]
    ensures tables[i] in CaptureTables(cat, h, tables)
      && CaptureTables(cat, h, tables)[tables[i]] == RowsOf(cat, tables[i], h)
  {
    hide RowsOf;
  }

  /** The hashes that pass, in the order and with the repetitions of the input. */
  function Kept(st: State, all: seq<Hash>, bloomKept: seq<Hash>): seq<Hash> {
    if all == [] then []
    else Kept(st, all[..|all| - 1], bloomKept) + if Passes(st, all[|all| - 1], all[|all| - 1] in bloomKept)
        then [all[|all| - 1]] else []
  }

  class Store {
    const cfg: Config
    var catalogue: Catalogue
    var snapshots: seq<Snapshot>
    var events: seq<VerdictEvent>
    var verdicts: map<Hash, VerdictState>
    var usedBytes: int
    var count: int
    var guards: Guards
    var schema: nat
    var cascadeKnown: bool

    constructor (cfg: Config, catalogue: Catalogue, guards: Guards, schema: nat, cascadeKnown: bool)
      ensures this.cfg == cfg && View() == State(catalogue, [], [], map[], 0, 0, guards, schema, cascadeKnown)
    {
      this.cfg, this.catalogue, this.guards, this.schema, this.cascadeKnown := cfg, catalogue, guards, schema,
          cascadeKnown;
      snapshots, events, verdicts, usedBytes, count := [], [], map[], 0, 0;
    }

    function View(): State
      reads this
    {
      State(catalogue, snapshots, events, verdicts, usedBytes, count, guards, schema, cascadeKnown)
    }

    method Commit(st: State)
      requires st.guards == guards && st.schema == schema && st.cascadeKnown == cascadeKnown
      modifies this
      ensures View() == st
    {
      catalogue, snapshots, events, verdicts, usedBytes, count := st.catalogue, st.snapshots, st.events, st.verdicts,
          st.usedBytes, st.count;
    }

    /** The table by table capture of removeTx, giving up at the first cap exceeded. */
    method CaptureRows(cat: Catalogue, h: Hash, tables: seq<Table>) returns (p: Payload, ok: bool)
      requires |tables| > 0
      ensures var whole := CaptureTables(cat, h, tables);
        ok == !(RowTotal(whole, tables) > cfg.maxRows
            || ByteTotal(cfg.tableBytes, whole, tables) > cfg.maxSnapshotBytes) && (ok ==> p == whole)
    {
      hide RowsOf, CaptureTables;
      ghost var whole := CaptureTables(cat, h, tables);
      p := map[];
      assert p == CaptureTables(cat, h, []) by { CaptureNothing(cat, h); }
      var size, rowCount := 0, 0;
      for i := 0 to |tables|
        invariant p == CaptureTables(cat, h, tables[..i])
        invariant rowCount == RowTotal(whole, tables[..i]) && size == ByteTotal(cfg.tableBytes, whole, tables[..i])
        invariant i > 0 ==> rowCount <= cfg.maxRows && size <= cfg.maxSnapshotBytes
      {
        var t := tables[i];
        CaptureOneMore(cat, h, tables, i);
        assert tables[..i + 1][..i] == tables[..i];
        TotalsGrow(cfg.tableBytes, whole, tables, i + 1);
        var rows := RowsOf(cat, t, h);
        rowCount := rowCount + |rows|;
        if rowCount > cfg.maxRows {
          return p, false;
        }
        size := size + cfg.tableBytes(rows);
        if size > cfg.maxSnapshotBytes {
          return p, false;
        }
        p := p[t := rows];
      }
      assert tables[..|tables|] == tables;
      ok := true;
    }

    method RemoveTx(st: State, h: Hash, mechanism: Mechanism, reason: string, now: int)
        returns (r: Result<(State, int)>)
      ensures r == RemoveOne(cfg, st, h, mechanism, reason, now)
    {
      hide CaptureTables, RowTotal, ByteTotal, RemovalReceipt, HasTorrent, Cascade;
      if !HasTorrent(st.catalogue, h) {
        var i := LastRetry(st, |st.snapshots|, h, reason);
        if i.None? {
          return Err(Conflict);
        }
        if now >= st.snapshots[i.value].expiresAt {
          return Err(ExpiredWindow);
        }
        if !RemovalReceipt(st, i.value) {
          return Err(Conflict);
        }
        return Ok((st, i.value));
      }
      var guard := RemovalGuard(st, h);
      if guard.Some? {
        return Err(guard.value);
      }
      if !st.cascadeKnown {
        return Err(Conflict);
      }
      var p, ok := CaptureRows(st.catalogue, h, TABLES);
      if !ok {
        return Err(Capacity);
      }
      var size := cfg.bodyBytes(p);
      if size > cfg.maxSnapshotBytes || size > cfg.maxPayloadBytes - st.usedBytes || st.count >= cfg.maxSnapshots {
        return Err(Capacity);
      }
      var id := |st.snapshots|;
      var s := Snapshot(h, p, st.schema, Removed, reason, size, now, now + cfg.retention, |st.events|, None);
      var next := st.(snapshots := st.snapshots + [s], usedBytes := st.usedBytes + size, count := st.count + 1);
      next := next.(catalogue := Cascade(next.catalogue, h));
      next := next.(events := next.events + [VerdictEvent(h, Tombstoned, mechanism, Receipt(id + 1, ToRemoved))]);
      next := next.(verdicts := next.verdicts[h := VerdictState(Tombstoned, mechanism)]);
      return Ok((next, id));
    }

    /** All hashes or none: an error anywhere leaves every table and the budget as they were. */
    method RemoveBatch(c: Removal) returns (r: Result<seq<int>>)
      modifies this
      ensures (View(), r) == RecoverySpec.RemoveBatch(cfg, old(View()), c)
      ensures r.Err? ==> View() == old(View())
    {
      hide RemoveOne;
      if !cfg.enabled {
        return Err(Disabled);
      }
      if |c.hashes| == 0 || |c.hashes| > MAX_BATCH || Blank(c.reason) || |c.reason| > 1024 || c.now == 0 {
        return Err(Malformed);
      }
      if !Distinct(c.hashes) {
        return Err(Malformed);
      }
      if !c.storageBefore {
        return Err(Capacity);
      }
      var ordered := SortHashes(c.hashes);
      var st, out := View(), [];
      for i := 0 to |ordered|
        invariant View() == old(View())
        invariant RemoveAll(cfg, old(View()), ordered[..i], c.mechanism, c.reason, c.now) == Ok((st, out))
      {
        assert ordered[..i + 1][..i] == ordered[..i];
        var one := RemoveTx(st, ordered[i], c.mechanism, c.reason, c.now);
        if one.Err? {
          FirstErrorWins(old(View()), ordered, i + 1, c, one.error);
          return Err(one.error);
        }
        st, out := one.value.0, out + [one.value.1];
      }
      assert ordered[..|ordered|] == ordered;
      if !c.storageAfter {
        return Err(Capacity);
      }
      RemovalKeepsContext(old(View()), ordered, c);
      Commit(st);
      return Ok(out);
    }

    lemma {:induction false} FirstErrorWins(st: State, hashes: seq<Hash>, n: int, c: Removal, e: Error)
      requires 0 <= n <= |hashes| && RemoveAll(cfg, st, hashes[..n], c.mechanism, c.reason, c.now) == Err(e)
      ensures RemoveAll(cfg, st, hashes, c.mechanism, c.reason, c.now) == Err(e)
      decreases |hashes|
    {
      hide RemoveOne;
      if n < |hashes| {
        assert hashes[..|hashes| - 1][..n] == hashes[..n];
        FirstErrorWins(st, hashes[..|hashes| - 1], n, c, e);
      } else {
        assert hashes[..n] == hashes;
      }
    }

    lemma {:induction false} RemovalKeepsContext(st: State, hashes: seq<Hash>, c: Removal)
      requires RemoveAll(cfg, st, hashes, c.mechanism, c.reason, c.now).Ok?
      ensures var after := RemoveAll(cfg, st, hashes, c.mechanism, c.reason, c.now).value.0;
        after.guards == st.guards && after.schema == st.schema && after.cascadeKnown == st.cascadeKnown
      decreases |hashes|
    {
      hide Oversized, Capture, RemovalReceipt, HasTorrent, Cascade, RemovalGuard;
      if hashes != [] {
        RemovalKeepsContext(st, hashes[..|hashes| - 1], c);
      }
    }

    method RestoreRows(cat: Catalogue, t: Table, h: Hash, rows: set<Row>, regenerate: Row -> nat)
        returns (ok: bool, after: Catalogue)
      ensures ok == RestoreTable(cat, t, h, rows, regenerate).Some?
      ensures ok ==> after == RestoreTable(cat, t, h, rows, regenerate).value
    {
      if rows == {} {
        return true, cat;
      }
      after := InsertRows(cat, t, rows, regenerate);
      ok := Matches(after, t, h, rows);
    }

    /** The loop of Restore over the tables, in order, up to the first mismatch. */
    method RestoreAll(s: Snapshot, tables: seq<Table>, regenerate: Row -> nat) returns (ok: bool, cat: Catalogue)
      ensures ok == RestoreTables(catalogue, tables, s.hash, s.payload, regenerate).Some?
      ensures ok ==> cat == RestoreTables(catalogue, tables, s.hash, s.payload, regenerate).value
    {
      hide RestoreTable;
      cat := catalogue;
      for n := 0 to |tables|
        invariant RestoreTables(catalogue, tables[..n], s.hash, s.payload, regenerate) == Some(cat)
      {
        var t := tables[n];
        assert tables[..n + 1][..n] == tables[..n];
        ok := t in s.payload;
        if ok {
          ok, cat := RestoreRows(cat, t, s.hash, s.payload[t], regenerate);
        }
        if !ok {
          MismatchEndsRestore(catalogue, tables, n + 1, s.hash, s.payload, regenerate);
          return;
        }
      }
      assert tables[..|tables|] == tables;
      ok := true;
    }

    /** Any refusal or mismatch leaves every table as it was. */
    method Restore(c: Restoration) returns (r: Result<bool>)
      modifies this
      ensures (View(), r) == RecoverySpec.Restore(cfg, old(View()), c)
      ensures r != Ok(true) ==> View() == old(View())
    {
      hide MayRestore, RestoreTables;
      var refusal := RestoreRefusal(cfg, View(), c);
      if refusal.Some? {
        return Err(refusal.value);
      }
      var i := c.id - 1;
      var s := snapshots[i];
      if s.state == Restored {
        return Ok(false);
      }
      var ok, cat := RestoreAll(s, TABLES, c.regenerate);
      if !ok {
        return Err(Conflict);
      }
      if !c.storageAfter {
        return Err(Capacity);
      }
      catalogue := cat;
      snapshots := snapshots[i := s.(state := Restored, restoredEvent := Some(|events|))];
      events := events + [VerdictEvent(s.hash, RestoredVerdict, Operator, Receipt(c.id, ToRestored))];
      verdicts := verdicts[s.hash := VerdictState(RestoredVerdict, Operator)];
      return Ok(true);
    }

    static lemma {:induction false} MismatchEndsRestore(cat: Catalogue, tables: seq<Table>, n: int, h: Hash,
        p: Payload, regenerate: Row -> nat)
      requires 0 <= n <= |tables| && RestoreTables(cat, tables[..n], h, p, regenerate).None?
      ensures RestoreTables(cat, tables, h, p, regenerate).None?
      decreases |tables|
    {
      hide RestoreTable;
      if n < |tables| {
        assert tables[..|tables| - 1][..n] == tables[..n];
        MismatchEndsRestore(cat, tables[..|tables| - 1], n, h, p, regenerate);
      } else {
        assert tables[..n] == tables;
      }
    }

    /** The exact correction of what a bloom filter kept. */
    method Filter(all: seq<Hash>, bloomKept: seq<Hash>) returns (r: Result<seq<Hash>>)
      ensures !cfg.enabled ==> r == Err(Disabled)
      ensures cfg.enabled && |all| > MAX_FILTER ==> r == Err(Malformed)
      ensures cfg.enabled && |all| <= MAX_FILTER ==> r == Ok(Kept(View(), all, bloomKept))
    {
      hide Passes;
      if !cfg.enabled {
        return Err(Disabled);
      }
      if |all| > MAX_FILTER {
        return Err(Malformed);
      }
      var kept := Decisions(all, bloomKept);
      var out := [];
      for i := 0 to |all|
        invariant out == Kept(View(), all[..i], bloomKept)
      {
        assert all[..i + 1][..i] == all[..i] && all[i] in all;
        if all[i] in kept && kept[all[i]] {
          out := out + [all[i]];
        }
      }
      assert all[..|all|] == all;
      return Ok(out);
    }

    /** The map that Filter keeps: first what the bloom filter kept, then overruled by the newest
        snapshot of every hash that has one. */
    method Decisions(all: seq<Hash>, bloomKept: seq<Hash>) returns (kept: map<Hash, bool>)
      ensures forall h :: h in all ==> ((h in kept && kept[h]) <==> Passes(View(), h, h in bloomKept))
    {
      hide RestorationValid;
      kept := map[];
      for i := 0 to |bloomKept|
        invariant forall h :: h in kept <==> h in bloomKept[..i]
        invariant forall h :: h in kept ==> kept[h]
      {
        kept := kept[bloomKept[i] := true];
      }
      assert bloomKept[..|bloomKept|] == bloomKept;
      ghost var byBloom := kept;
      var rest := set h | h in all && NewestSnapshot(snapshots, h).Some?;
      ghost var known := rest;
      while rest != {}
        invariant rest <= known
        invariant forall h :: h in known - rest ==> h in kept && kept[h] == Passes(View(), h, h in bloomKept)
        invariant forall h :: h !in known - rest ==> (h in kept <==> h in byBloom) && (h in kept ==> kept[h])
        decreases |rest|
      {
        var h :| h in rest;
        var s := NewestSnapshot(snapshots, h).value;
        kept := kept[h := snapshots[s].state == Restored && RestorationValid(View(), s)];
        rest := rest - {h};
      }
    }
  }
}
