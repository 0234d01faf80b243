/** When a removal can be taken back at once. */
module RestoreProgress {
  import opened Options
  import opened RecoverySpec
  import opened CatalogueSafety
  import opened CatalogueRuns

  /** The database stores every captured row as it was, generated columns included. */
  ghost predicate Reproduces(regenerate: Row -> nat, p: Payload) {
    forall t, r :: t in p && r in p[t] ==> regenerate(r) == r.body
  }

  /** The shared sources of the payload are still in the catalogue. */
  ghost predicate SourcesStay(cat: Catalogue, p: Payload)
    requires TorrentSources in p
  {
    SharedRows(cat, PayloadKeys(p[TorrentSources])) == p[TorrentSources]
  }

  lemma CascadeKeepsSources(cat: Catalogue, h: Hash)
    ensures TorrentSources in Capture(cat, h) && SourcesStay(Cascade(cat, h), Capture(cat, h))
  {
    EveryTable(TorrentSources);
    var rows := Capture(cat, h)[TorrentSources];
    assert rows == SharedRows(cat, LinkedKeys(cat, h));
    forall r | r in SharedRows(Cascade(cat, h), PayloadKeys(rows)) ensures r in rows {
      var s :| s in rows && s.key == r.key;
    }
  }

  lemma ChildTableRestores(before: Catalogue, t: Table, h: Hash, rows: set<Row>, regenerate: Row -> nat)
    requires t != TorrentSources && TableRows(before, t, h) == {}
    requires forall r :: r in rows ==> r.Child? && r.table == t && r.hash == h && regenerate(r) == r.body
    ensures RestoreTable(before, t, h, rows, regenerate).Some?
  {
    var after := InsertRows(before, t, rows, regenerate);
    forall r | r in rows ensures r in after { assert Stored(regenerate, r) == r; }
    forall r | r in after && r !in before ensures r in rows {
      var s :| s in rows && r == Stored(regenerate, s);
    }
    forall r | r in before ensures !(r.Child? && r.table == t && r.hash == h) { assert r !in TableRows(before, t, h); }
    assert TableRows(after, t, h) == rows;
  }

  lemma SharedTableRestores(cat: Catalogue, before: Catalogue, tables: seq<Table>, h: Hash, p: Payload,
      regenerate: Row -> nat)
    requires PayloadShaped(p, h) && TorrentSources in p && SourcesStay(cat, p)
    requires RestoredSoFar(cat, before, tables, h, p)
    ensures RestoreTable(before, TorrentSources, h, p[TorrentSources], regenerate).Some?
  {
    var rows := p[TorrentSources];
    var keys := PayloadKeys(rows);
    forall k | k in keys ensures k in SharedKeys(cat) && k in SharedKeys(before) {
      var s :| s in rows && s.Shared? && s.key == k;
      assert s in SharedRows(cat, keys);
      assert s in before;
    }
    var after := InsertRows(before, TorrentSources, rows, regenerate);
    forall r | r in rows ensures r.Shared? && r.key in keys {
    }
    assert after == before;
    assert SharedRows(before, keys) == SharedRows(cat, keys);
  }

  lemma RowsFit(p: Payload, h: Hash, t: Table, regenerate: Row -> nat)
    requires PayloadShaped(p, h) && t in p && t != TorrentSources && Reproduces(regenerate, p)
    ensures forall r :: r in p[t] ==> r.Child? && r.table == t && r.hash == h && regenerate(r) == r.body
  {
    hide PayloadShaped;
    AllRowsShaped(p, h);
  }

  lemma AllRowsShaped(p: Payload, h: Hash)
    requires PayloadShaped(p, h)
    ensures RowsShaped(p, h)
  {
    hide RowsShaped;
  }

  lemma {:induction false} TablesRestore(cat: Catalogue, tables: seq<Table>, h: Hash, p: Payload,
      regenerate: Row -> nat)
    requires PayloadShaped(p, h) && TorrentSources in p && NoRepeats(tables) && SourcesStay(cat, p)
      && Reproduces(regenerate, p)
    requires forall t :: TableRows(cat, t, h) == {}
    ensures RestoreTables(cat, tables, h, p, regenerate).Some?
    decreases |tables|
  {
    hide RestoreTable, RestoredSoFar, SourcesStay, PayloadShaped, Reproduces, TableRows;
    if tables != [] {
      var rest, t := tables[..|tables| - 1], tables[|tables| - 1];
      TablesRestore(cat, rest, h, p, regenerate);
      RestoreTablesExact(cat, rest, h, p, regenerate);
      ShapedTables(p, h);
      var before := RestoreTables(cat, rest, h, p, regenerate).value;
      if t == TorrentSources {
        SharedTableRestores(cat, before, rest, h, p, regenerate);
      } else {
        StillEmpty(cat, before, rest, t, h, p);
        RowsFit(p, h, t, regenerate);
        ChildTableRestores(before, t, h, p[t], regenerate);
      }
    }
  }

  /** A removal is taken back by a restore right after it exactly when recovery is enabled,
      the retention window is open, the mechanism is one of the two restorable ones, nothing
      protects the hash, the schema's cascades are known and storage allows it. */
  lemma RestorableExactlyWhen(cfg: Config, st: State, h: Hash, mechanism: Mechanism, reason: string, now: int,
      r: Restoration)
    requires Sound(st) && HasTorrent(st.catalogue, h) && r.id == |st.snapshots| + 1
    requires Reproduces(r.regenerate, Capture(st.catalogue, h))
    ensures Restore(cfg, RemovedState(cfg, st, h, mechanism, reason, now), r).1 == Ok(true) <==>
      && cfg.enabled && r.now != 0 && r.now < now + cfg.retention && mechanism in {Blocking, ClassifierDelete}
      && st.cascadeKnown && !ProtectedNow(st, h) && r.storageAfter
  {
    hide RestoreTables, HasTorrent, WellFormed, Capture, Cascade, PayloadShaped, SourcesStay, Reproduces;
    CaptureShaped(st.catalogue, h);
    CascadeRemovesAll(st.catalogue, h);
    CascadeKeepsSources(st.catalogue, h);
    TablesDistinct();
    TablesRestore(Cascade(st.catalogue, h), TABLES, h, Capture(st.catalogue, h), r.regenerate);
    var st1 := RemovedState(cfg, st, h, mechanism, reason, now);
    assert LastEvent(st1.events, h) == Some(|st.events|);
  }
}
