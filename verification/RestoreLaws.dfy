/** Exactly when the captured rows can be put back, and what a Restore call then answers. */
module RestoreLaws {
  import opened Options
  import opened RecoverySpec
  import opened CatalogueSafety
  import opened CatalogueRuns
  import opened RemovalLaws

  /** What the database stores for the rows, generated columns computed again, is those rows. */
  ghost predicate Reproduced(regenerate: Row -> nat, rows: set<Row>) {
    forall r :: r in rows <==> StoredFrom(regenerate, rows, r)
  }

  /** The rows as the database stores them. */
  function AsStored(regenerate: Row -> nat, rows: set<Row>): set<Row> {
    set s | s in rows :: Stored(regenerate, s)
  }

  ghost predicate StoredFrom(regenerate: Row -> nat, rows: set<Row>, r: Row) {
    exists s :: s in rows && r == s.(body := regenerate(s))
  }

  ghost predicate HasSource(cat: Catalogue, k: nat) {
    exists s :: s in cat && s.Shared? && s.key == k
  }

  function Missing(cat: Catalogue, rows: set<Row>): set<Row> {
    set r | r in rows && r.Shared? && r.key !in SharedKeys(cat)
  }

  /** The sources that are still there are the captured ones, and the missing ones can be stored. */
  ghost predicate SourcesAgree(cat: Catalogue, rows: set<Row>, regenerate: Row -> nat) {
    && (forall r, s :: r in rows && s in cat && r.Shared? && s.Shared? && s.key == r.key ==> s in rows)
    && (forall r :: r in rows && r.Shared? && HasSource(cat, r.key) ==> r in cat)
    && Reproduced(regenerate, Missing(cat, rows))
  }

  /** One table of the payload comes back as it was captured. */
  ghost predicate ComesBack(cat: Catalogue, t: Table, p: Payload, regenerate: Row -> nat)
    requires t in p
  {
    if t == TorrentSources then SourcesAgree(cat, p[t], regenerate) else Reproduced(regenerate, p[t])
  }

  lemma KeyedExactly(cat: Catalogue, k: nat)
    ensures k in SharedKeys(cat) <==> HasSource(cat, k)
  {
    if HasSource(cat, k) {
      var s :| s in cat && s.Shared? && s.key == k;
      assert s in (set r | r in cat && r.Shared?);
    }
  }

  lemma ChildRowsAfter(before: Catalogue, t: Table, h: Hash, rows: set<Row>, regenerate: Row -> nat)
    requires t != TorrentSources && TableRows(before, t, h) == {}
    requires forall r :: r in rows ==> r.Child? && r.table == t && r.hash == h
    ensures TableRows(InsertRows(before, t, rows, regenerate), t, h) == AsStored(regenerate, rows)
  {
    forall r | r in before ensures !(r.Child? && r.table == t && r.hash == h) { assert r !in TableRows(before, t, h); }
  }

  lemma ChildTableExactly(before: Catalogue, t: Table, h: Hash, rows: set<Row>, regenerate: Row -> nat)
    requires t != TorrentSources && TableRows(before, t, h) == {}
    requires forall r :: r in rows ==> r.Child? && r.table == t && r.hash == h
    ensures RestoreTable(before, t, h, rows, regenerate).Some? <==> Reproduced(regenerate, rows)
  {
    hide Reproduced, InsertRows, AsStored, TableRows;
    ChildRowsAfter(before, t, h, rows, regenerate);
    ImageExactly(rows, regenerate);
  }

  lemma ImageExactly(rows: set<Row>, regenerate: Row -> nat)
    ensures AsStored(regenerate, rows) == rows <==> Reproduced(regenerate, rows)
    ensures rows == {} ==> Reproduced(regenerate, rows)
  {
    hide StoredFrom, AsStored;
    forall r ensures r in AsStored(regenerate, rows) <==> StoredFrom(regenerate, rows, r) {
      InImage(rows, regenerate, r);
    }
    if rows == {} { assert AsStored(regenerate, rows) == {} by { NothingStored(regenerate); } }
  }

  lemma NothingStored(regenerate: Row -> nat)
    ensures AsStored(regenerate, {}) == {}
  {
  }

  lemma InImage(rows: set<Row>, regenerate: Row -> nat, r: Row)
    ensures r in AsStored(regenerate, rows) <==> StoredFrom(regenerate, rows, r)
  {
    if StoredFrom(regenerate, rows, r) {
      var s :| s in rows && r == s.(body := regenerate(s));
      assert r == Stored(regenerate, s);
    }
  }

  /** The shared sources after the insert: those that were there, and the missing ones as stored. */
  lemma SourcesAfter(before: Catalogue, rows: set<Row>, regenerate: Row -> nat)
    requires forall r :: r in rows ==> r.Shared?
    ensures SharedRows(InsertRows(before, TorrentSources, rows, regenerate), PayloadKeys(rows)) ==
      SharedRows(before, PayloadKeys(rows)) + AsStored(regenerate, Missing(before, rows))
  {
    var after, keys := InsertRows(before, TorrentSources, rows, regenerate), PayloadKeys(rows);
    var image := AsStored(regenerate, Missing(before, rows));
    forall r | r in image ensures r in SharedRows(after, keys) {
      var s :| s in Missing(before, rows) && r == Stored(regenerate, s);
    }
    forall r | r in SharedRows(after, keys) ensures r in SharedRows(before, keys) + image {
      if r !in before {
        var s :| s in rows && s.key !in SharedKeys(before) && r == Stored(regenerate, s);
        assert s in Missing(before, rows);
      }
    }
  }

  lemma SharedTableExactly(before: Catalogue, h: Hash, rows: set<Row>, regenerate: Row -> nat)
    requires forall r :: r in rows ==> r.Shared?
    ensures RestoreTable(before, TorrentSources, h, rows, regenerate).Some? <==> SourcesAgree(before, rows, regenerate)
  {
    hide InsertRows, Reproduced;
    SourcesAfter(before, rows, regenerate);
    ImageExactly(Missing(before, rows), regenerate);
    var keys, missing := PayloadKeys(rows), Missing(before, rows);
    var image := AsStored(regenerate, missing);
    forall k ensures k in SharedKeys(before) <==> HasSource(before, k) { KeyedExactly(before, k); }
    if rows == {} {
      assert missing == {};
    } else {
      ImageAbsent(before, rows, regenerate);
      if SharedRows(before, keys) + image == rows { AgreeFromMatch(before, rows, regenerate); }
      if SourcesAgree(before, rows, regenerate) { MatchFromAgree(before, rows, regenerate); }
    }
  }

  lemma ImageAbsent(before: Catalogue, rows: set<Row>, regenerate: Row -> nat)
    requires forall r :: r in rows ==> r.Shared?
    ensures forall s :: s in Missing(before, rows) ==> Stored(regenerate, s).key !in SharedKeys(before)
  {
  }

  lemma AgreeFromMatch(before: Catalogue, rows: set<Row>, regenerate: Row -> nat)
    requires forall r :: r in rows ==> r.Shared?
    requires SharedRows(before, PayloadKeys(rows)) + AsStored(regenerate, Missing(before, rows)) == rows
    ensures SourcesAgree(before, rows, regenerate)
  {
    hide Reproduced, SharedKeys;
    var keys, missing := PayloadKeys(rows), Missing(before, rows);
    var image := AsStored(regenerate, missing);
    ImageAbsent(before, rows, regenerate);
    forall r, s | r in rows && s in before && s.Shared? && s.key == r.key ensures s in rows {
      assert s in SharedRows(before, keys);
    }
    forall r | r in rows && HasSource(before, r.key) ensures r in before {
      KeyedExactly(before, r.key);
      assert r !in image;
    }
    assert image == missing by {
      forall r | r in missing ensures r in image {
        KeyedExactly(before, r.key);
        assert r !in SharedRows(before, keys);
      }
      forall r | r in image ensures r in missing {
        assert r in rows;
        var s :| s in missing && r == Stored(regenerate, s);
      }
    }
    ImageExactly(missing, regenerate);
  }

  lemma MatchFromAgree(before: Catalogue, rows: set<Row>, regenerate: Row -> nat)
    requires forall r :: r in rows ==> r.Shared?
    requires SourcesAgree(before, rows, regenerate)
    ensures SharedRows(before, PayloadKeys(rows)) + AsStored(regenerate, Missing(before, rows)) == rows
  {
    hide Reproduced, SharedKeys;
    var keys, missing := PayloadKeys(rows), Missing(before, rows);
    ImageExactly(missing, regenerate);
    forall r | r in SharedRows(before, keys) ensures r in rows {
      var s :| s in rows && s.key == r.key;
    }
    forall r | r in rows ensures r in SharedRows(before, keys) + missing {
      KeyedExactly(before, r.key);
    }
  }

  ghost predicate SameSources(a: Catalogue, b: Catalogue) {
    forall r: Row :: r.Shared? ==> (r in a <==> r in b)
  }

  lemma SameAgreement(a: Catalogue, b: Catalogue, rows: set<Row>, regenerate: Row -> nat)
    requires SameSources(a, b)
    ensures SourcesAgree(a, rows, regenerate) <==> SourcesAgree(b, rows, regenerate)
  {
    hide Reproduced;
    assert (set r | r in a && r.Shared?) == (set r | r in b && r.Shared?);
    assert Missing(a, rows) == Missing(b, rows);
    forall k ensures HasSource(a, k) <==> HasSource(b, k) {
      KeyedExactly(a, k);
      KeyedExactly(b, k);
    }
  }

  lemma OneTableExactly(cat: Catalogue, before: Catalogue, tables: seq<Table>, t: Table, h: Hash, p: Payload,
                        regenerate: Row -> nat)
    requires PayloadShaped(p, h) && t in p && t !in tables && TorrentSources in p
    requires RestoredSoFar(cat, before, tables, h, p) && (TorrentSources !in tables ==> SameSources(cat, before))
    ensures RestoreTable(before, t, h, p[t], regenerate).Some? <==> ComesBack(cat, t, p, regenerate)
  {
    hide RestoredSoFar, RestoreTable, Reproduced, SourcesAgree, SameSources, TableRows, PayloadKeys, PayloadShaped;
    AllShaped(p, h);
    if t == TorrentSources {
      SharedTableExactly(before, h, p[t], regenerate);
      SameAgreement(cat, before, p[t], regenerate);
    } else {
      StillEmpty(cat, before, tables, t, h, p);
      ChildTableExactly(before, t, h, p[t], regenerate);
    }
  }

  lemma AllShaped(p: Payload, h: Hash)
    requires PayloadShaped(p, h)
    ensures RowsShaped(p, h)
  {
    hide RowsShaped;
  }

  lemma ChildKeepsSources(before: Catalogue, t: Table, h: Hash, rows: set<Row>, regenerate: Row -> nat)
    requires t != TorrentSources && forall r :: r in rows ==> r.Child? && r.table == t && r.hash == h
    requires RestoreTable(before, t, h, rows, regenerate).Some?
    ensures SameSources(before, RestoreTable(before, t, h, rows, regenerate).value)
  {
    ChildInsert(before, t, h, rows, regenerate);
  }

  /** All the listed tables can be put back exactly when each of them comes back. */
  lemma {:induction false} TablesExactly(cat: Catalogue, tables: seq<Table>, h: Hash, p: Payload,
                                         regenerate: Row -> nat)
    requires PayloadShaped(p, h) && NoRepeats(tables) && forall t :: t in p
    requires forall t :: TableRows(cat, t, h) == {}
    ensures RestoreTables(cat, tables, h, p, regenerate).Some? <==>
      forall t :: t in tables ==> ComesBack(cat, t, p, regenerate)
    ensures RestoreTables(cat, tables, h, p, regenerate).Some? && TorrentSources !in tables ==>
      SameSources(cat, RestoreTables(cat, tables, h, p, regenerate).value)
    decreases |tables|
  {
    hide RestoreTable, PayloadShaped, RestoredSoFar, ComesBack, TableRows;
    if tables != [] {
      var rest, t := tables[..|tables| - 1], tables[|tables| - 1];
      assert tables == rest + [t];
      TablesExactly(cat, rest, h, p, regenerate);
      if RestoreTables(cat, rest, h, p, regenerate).Some? {
        RestoreTablesExact(cat, rest, h, p, regenerate);
        var before := RestoreTables(cat, rest, h, p, regenerate).value;
        OneTableExactly(cat, before, rest, t, h, p, regenerate);
        if t != TorrentSources && RestoreTable(before, t, h, p[t], regenerate).Some? {
          AllShaped(p, h);
          ChildKeepsSources(before, t, h, p[t], regenerate);
        }
      }
    }
  }

  /** In every reachable state Restore answers true exactly for a removed snapshot within its time,
      whose own tombstone is still bound, whose torrent is neither back nor quarantined, labelled or
      private to a client, under the same schema with known cascades, if the captured rows of every
      table are stored as they were, the shared sources that are still there are the captured ones,
      and storage allows it. */
  lemma RestoredExactlyWhen(cfg: Config, st: State, c: Restoration)
    requires Sound(st)
    ensures Restore(cfg, st, c).1 == Ok(true) <==>
      && cfg.enabled && c.now != 0 && 0 < c.id <= |st.snapshots|
      && var s := st.snapshots[c.id - 1];
      && s.state == Removed && c.now < s.expiresAt && st.cascadeKnown && s.schema == st.schema
      && s.hash !in st.guards.quarantined && s.hash !in st.guards.labelled && s.hash !in st.guards.qbPrivate
      && StillBound(st, c.id - 1) && !HasTorrent(st.catalogue, s.hash) && c.storageAfter
      && forall t: Table :: t in s.payload && ComesBack(st.catalogue, t, s.payload, c.regenerate)
  {
    hide Restore, RestoreTables, HasTorrent, StillBound, WellFormed, PayloadShaped, ComesBack, RowsOf, Capture;
    RestoredExactly(cfg, st, c);
    if 0 < c.id <= |st.snapshots| && !HasTorrent(st.catalogue, st.snapshots[c.id - 1].hash) {
      var s := st.snapshots[c.id - 1];
      assert SnapshotBound(st, c.id - 1);
      ShapedTables(s.payload, s.hash);
      NoTorrentNoRows(st.catalogue, s.hash);
      TablesDistinct();
      TablesExactly(st.catalogue, TABLES, s.hash, s.payload, c.regenerate);
      forall t: Table ensures t in TABLES { EveryTable(t); }
    }
  }

  /** The other answers.  A repeated restore changes nothing and says so whatever the time; the
      refusals of a removed snapshot are its expiry first, unknown cascades next, protection last. */
  lemma RestoreAnswers(cfg: Config, st: State, c: Restoration)
    ensures !cfg.enabled ==> Restore(cfg, st, c) == (st, Err(Disabled))
    ensures cfg.enabled && (c.id <= 0 || c.now == 0) ==> Restore(cfg, st, c) == (st, Err(Malformed))
    ensures cfg.enabled && c.id > |st.snapshots| && c.now != 0 ==> Restore(cfg, st, c) == (st, Err(NotFound))
    ensures cfg.enabled && 0 < c.id <= |st.snapshots| && c.now != 0 ==>
      var s := st.snapshots[c.id - 1];
      && (s.state == Restored <==> Restore(cfg, st, c).1 == Ok(false))
      && (s.state == Removed && c.now >= s.expiresAt <==> Restore(cfg, st, c).1 == Err(ExpiredWindow))
      && (s.state == Removed && c.now < s.expiresAt && !st.cascadeKnown ==> Restore(cfg, st, c).1 == Err(Conflict))
      && (Restore(cfg, st, c).1 == Err(Protected) <==>
            && s.state == Removed && c.now < s.expiresAt && st.cascadeKnown
            && (s.hash in st.guards.quarantined || s.hash in st.guards.labelled || s.hash in st.guards.qbPrivate))
  {
    hide RestoreTables, HasTorrent, RemovalReceipt;
  }
}
