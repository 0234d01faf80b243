/**
Catalogue recovery over whole runs: a restore gives back exactly the captured rows, the
budget is exactly what is retained, and a removed hash stays blocked.
*/
module CatalogueSafety {
  import opened RecoverySpec

  // ------------------------------------------------------------- capturing and deleting

  /** Every row of the payload belongs to its table and to the hash. */
  ghost predicate RowsShaped(p: Payload, h: Hash) {
    forall t, r :: t in p && r in p[t] ==>
        if t == TorrentSources then r.Shared? else r.Child? && r.table == t && r.hash == h
  }

  /** All ten tables are there, and the shared sources are those the links name. */
  ghost predicate PayloadShaped(p: Payload, h: Hash) {
    && (forall t :: t in p <==> t in TABLES)
    && RowsShaped(p, h)
    && PayloadKeys(p[TorrentSources]) == (set r | r in p[TorrentsTorrentSources] :: r.link)
  }

  lemma EveryTable(t: Table)
    ensures t in TABLES
  {
    match t
    case Torrents => assert TABLES[0] == t;
    case TorrentSources => assert TABLES[1] == t;
    case TorrentsTorrentSources => assert TABLES[2] == t;
    case TorrentFiles => assert TABLES[3] == t;
    case TorrentPieces => assert TABLES[4] == t;
    case TorrentHints => assert TABLES[5] == t;
    case TorrentTags => assert TABLES[6] == t;
    case TorrentContents => assert TABLES[7] == t;
    case TorrentTrackerSeeds => assert TABLES[8] == t;
    case SyncClaims => assert TABLES[9] == t;
  }

  lemma CaptureShaped(cat: Catalogue, h: Hash)
    requires WellFormed(cat)
    ensures PayloadShaped(Capture(cat, h), h)
  {
    var p := Capture(cat, h);
    EveryTable(TorrentSources);
    EveryTable(TorrentsTorrentSources);
    var links := LinkedKeys(cat, h);
    assert p[TorrentsTorrentSources] == TableRows(cat, TorrentsTorrentSources, h);
    forall k | k in links ensures k in PayloadKeys(p[TorrentSources]) {
      var r :| r in TableRows(cat, TorrentsTorrentSources, h) && r.link == k;
      var s :| s in cat && s.Shared? && s.key == r.link;
      assert s in p[TorrentSources];
    }
    assert PayloadKeys(p[TorrentSources]) == links;
  }

  lemma CascadeRemovesAll(cat: Catalogue, h: Hash)
    ensures forall t :: TableRows(Cascade(cat, h), t, h) == {}
    ensures forall t, g :: g != h ==> TableRows(Cascade(cat, h), t, g) == TableRows(cat, t, g)
    ensures !HasTorrent(Cascade(cat, h), h)
  {
  }

  lemma CascadeWellFormed(cat: Catalogue, h: Hash)
    requires WellFormed(cat)
    ensures WellFormed(Cascade(cat, h))
  {
    var after := Cascade(cat, h);
    forall r | r in after && r.Child? ensures HasTorrent(after, r.hash) {
      var t :| t in cat && t.Child? && t.table == Torrents && t.hash == r.hash;
      assert t in after;
    }
    forall r | r in after && r.Child? && r.table == TorrentsTorrentSources
        ensures exists s :: s in after && s.Shared? && s.key == r.link {
      var s :| s in cat && s.Shared? && s.key == r.link;
      assert s in after;
    }
  }

  // -------------------------------------------------------------------------- restoring

  function SharedKeys(cat: Catalogue): set<nat> {
    PayloadKeys(set r | r in cat && r.Shared?)
  }

  /** Restored so far: the listed tables hold exactly their captured rows, the others
      nothing of this hash, and nothing else in the catalogue has moved. */
  ghost predicate RestoredSoFar(cat: Catalogue, after: Catalogue, tables: seq<Table>, h: Hash, p: Payload)
    requires TorrentSources in p
  {
    && cat <= after
    && (forall t :: t in p && t != TorrentSources ==> TableRows(after, t, h) == if t in tables then p[t] else {})
    && (TorrentSources in tables ==> SharedRows(after, PayloadKeys(p[TorrentSources])) == p[TorrentSources])
    && (forall r :: r in after && r !in cat ==>
          if r.Child? then r.hash == h && r.table != TorrentSources
              else r.key in PayloadKeys(p[TorrentSources]) && r.key !in SharedKeys(cat))
  }

  /** Inserting rows of one torrent's table adds rows of that table and torrent only. */
  lemma ChildInsert(before: Catalogue, t: Table, h: Hash, rows: set<Row>, regenerate: Row -> nat)
    requires t != TorrentSources && forall r :: r in rows ==> r.Child? && r.table == t && r.hash == h
    ensures var after := InsertRows(before, t, rows, regenerate);
      before <= after && forall r :: r in after && r !in before ==> r.Child? && r.table == t && r.hash == h
  {
  }

  /** Inserting shared sources adds only sources whose key was not there. */
  lemma SharedInsert(before: Catalogue, rows: set<Row>, regenerate: Row -> nat)
    requires forall r :: r in rows ==> r.Shared?
    ensures var after := InsertRows(before, TorrentSources, rows, regenerate);
      before <= after && forall r :: r in after && r !in before ==>
          r.Shared? && r.key in PayloadKeys(rows) && r.key !in SharedKeys(before)
  {
  }

  lemma SharedKeysGrow(cat: Catalogue, before: Catalogue)
    requires cat <= before
    ensures SharedKeys(cat) <= SharedKeys(before)
  {
    forall k | k in SharedKeys(cat) ensures k in SharedKeys(before) {
      var r :| r in cat && r.Shared? && r.key == k;
      assert r in before;
    }
  }

  lemma RestoreChildTable(cat: Catalogue, before: Catalogue, after: Catalogue, tables: seq<Table>, t: Table, h: Hash,
      p: Payload)
    requires PayloadShaped(p, h) && t in p && t !in tables && t != TorrentSources
    requires RestoredSoFar(cat, before, tables, h, p)
    requires before <= after && forall r :: r in after && r !in before ==> r.Child? && r.table == t && r.hash == h
    requires TableRows(after, t, h) == p[t]
    ensures RestoredSoFar(cat, after, tables + [t], h, p)
  {
    forall u | u in p && u != TorrentSources && u != t ensures TableRows(after, u, h) == TableRows(before, u, h) {
    }
    assert SharedRows(after, PayloadKeys(p[TorrentSources])) == SharedRows(before, PayloadKeys(p[TorrentSources]));
  }

  lemma RestoreSharedTable(cat: Catalogue, before: Catalogue, after: Catalogue, tables: seq<Table>, h: Hash, p: Payload)
    requires PayloadShaped(p, h) && TorrentSources in p && TorrentSources !in tables
    requires RestoredSoFar(cat, before, tables, h, p)
    requires before <= after && forall r :: r in after && r !in before ==>
      r.Shared? && r.key in PayloadKeys(p[TorrentSources]) && r.key !in SharedKeys(before)
    requires SharedRows(after, PayloadKeys(p[TorrentSources])) == p[TorrentSources]
    ensures RestoredSoFar(cat, after, tables + [TorrentSources], h, p)
  {
    hide PayloadKeys, SharedKeys;
    SharedKeysGrow(cat, before);
    forall u | u in p && u != TorrentSources ensures TableRows(after, u, h) == TableRows(before, u, h) {
    }
  }

  lemma RestoreOneTable(cat: Catalogue, before: Catalogue, tables: seq<Table>, t: Table, h: Hash, p: Payload,
      regenerate: Row -> nat)
    requires PayloadShaped(p, h) && t in p && t !in tables
    requires RestoredSoFar(cat, before, tables, h, p)
    requires RestoreTable(before, t, h, p[t], regenerate).Some?
    ensures RestoredSoFar(cat, RestoreTable(before, t, h, p[t], regenerate).value, tables + [t], h, p)
  {
    hide InsertRows, RestoredSoFar, PayloadKeys;
    var after := RestoreTable(before, t, h, p[t], regenerate).value;
    if t == TorrentSources {
      SharedInsert(before, p[t], regenerate);
      if p[t] == {} { assert SharedRows(after, PayloadKeys(p[t])) == {} by { NoKeys(after); } }
      RestoreSharedTable(cat, before, after, tables, h, p);
    } else {
      ChildInsert(before, t, h, p[t], regenerate);
      if p[t] == {} { StillEmpty(cat, before, tables, t, h, p); }
      RestoreChildTable(cat, before, after, tables, t, h, p);
    }
  }

  lemma NoKeys(cat: Catalogue)
    ensures SharedRows(cat, PayloadKeys({})) == {}
  {
  }

  lemma StillEmpty(cat: Catalogue, before: Catalogue, tables: seq<Table>, t: Table, h: Hash, p: Payload)
    requires TorrentSources in p && t in p && t !in tables && t != TorrentSources
    requires RestoredSoFar(cat, before, tables, h, p)
    ensures TableRows(before, t, h) == {}
  {
  }

  predicate NoRepeats(tables: seq<Table>) {
    forall i, j :: 0 <= i < j < |tables| ==> tables[i] != tables[j]
  }

  lemma {:induction false} RestoreTablesExact(cat: Catalogue, tables: seq<Table>, h: Hash, p: Payload,
      regenerate: Row -> nat)
    requires PayloadShaped(p, h) && NoRepeats(tables)
    requires forall t :: TableRows(cat, t, h) == {}
    requires RestoreTables(cat, tables, h, p, regenerate).Some?
    ensures RestoredSoFar(cat, RestoreTables(cat, tables, h, p, regenerate).value, tables, h, p)
    decreases |tables|
  {
    hide RestoreTable, PayloadShaped;
    assert TorrentSources in p by { ShapedTables(p, h); }
    if tables != [] {
      var rest, t := tables[..|tables| - 1], tables[|tables| - 1];
      RestoreTablesExact(cat, rest, h, p, regenerate);
      RestoreOneTable(cat, RestoreTables(cat, rest, h, p, regenerate).value, rest, t, h, p, regenerate);
      assert tables == rest + [t];
    }
  }

  lemma ShapedTables(p: Payload, h: Hash)
    requires PayloadShaped(p, h)
    ensures forall t :: t in p
  {
    forall t ensures t in p {
      EveryTable(t);
    }
  }

  lemma TablesDistinct()
    ensures NoRepeats(TABLES)
  {
  }

  lemma NoTorrentNoRows(cat: Catalogue, h: Hash)
    requires WellFormed(cat) && !HasTorrent(cat, h)
    ensures forall t :: TableRows(cat, t, h) == {}
  {
  }

  /** A restored catalogue holds, for the hash, exactly the captured rows of all ten tables. */
  lemma RestoredRowsExact(cat: Catalogue, h: Hash, p: Payload, regenerate: Row -> nat)
    requires WellFormed(cat) && !HasTorrent(cat, h) && PayloadShaped(p, h)
    requires RestoreTables(cat, TABLES, h, p, regenerate).Some?
    ensures var after := RestoreTables(cat, TABLES, h, p, regenerate).value;
      && RestoredSoFar(cat, after, TABLES, h, p)
      && forall t :: t in TABLES ==> t in p && RowsOf(after, t, h) == p[t]
  {
    hide WellFormed, HasTorrent, RestoreTables, RestoredSoFar;
    ShapedTables(p, h);
    TablesDistinct();
    NoTorrentNoRows(cat, h);
    RestoreTablesExact(cat, TABLES, h, p, regenerate);
    var after := RestoreTables(cat, TABLES, h, p, regenerate).value;
    forall t | t in TABLES ensures RowsOf(after, t, h) == p[t] {
      TableRestored(cat, after, h, p, t);
    }
  }

  lemma TableRestored(cat: Catalogue, after: Catalogue, h: Hash, p: Payload, t: Table)
    requires PayloadShaped(p, h) && TorrentSources in p && t in p && RestoredSoFar(cat, after, TABLES, h, p)
    ensures RowsOf(after, t, h) == p[t]
  {
    EveryTable(t);
    EveryTable(TorrentSources);
    EveryTable(TorrentsTorrentSources);
    if t == TorrentSources {
      assert LinkedKeys(after, h) == PayloadKeys(p[TorrentSources]);
    }
  }
}
