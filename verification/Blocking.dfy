/**
The blocking manager: a buffer in front of a lossy, decaying bloom filter, corrected by
the exact recovery store.  The bloom filter is any test on hashes; a flush replaces it by
whatever test the database then holds.
*/
module BlockingManager {
  import opened Options
  import opened RecoverySpec
  import opened CatalogueRuns
  import opened RecoveryStore

  type Bloom = Hash -> bool

  /** The hashes that neither the buffer nor the bloom filter holds, in order. */
  function BloomKept(buffer: set<Hash>, bloom: Bloom, hashes: seq<Hash>): seq<Hash> {
    if hashes == [] then []
    else
      var h := hashes[|hashes| - 1];
      BloomKept(buffer, bloom, hashes[..|hashes| - 1]) + if h in buffer || bloom(h) then [] else [h]
  }

  lemma {:induction false} BloomKeptExactly(buffer: set<Hash>, bloom: Bloom, hashes: seq<Hash>, h: Hash)
    ensures h in BloomKept(buffer, bloom, hashes) <==> h in hashes && h !in buffer && !bloom(h)
    decreases |hashes|
  {
    if hashes != [] {
      BloomKeptExactly(buffer, bloom, hashes[..|hashes| - 1], h);
      assert hashes == hashes[..|hashes| - 1] + [hashes[|hashes| - 1]];
    }
  }

  lemma {:induction false} KeptExactly(st: State, all: seq<Hash>, bloomKept: seq<Hash>, h: Hash)
    ensures h in Kept(st, all, bloomKept) <==> h in all && Passes(st, h, h in bloomKept)
    decreases |all|
  {
    hide Passes;
    if all != [] {
      KeptExactly(st, all[..|all| - 1], bloomKept, h);
      assert all == all[..|all| - 1] + [all[|all| - 1]];
    }
  }

  /** After a batch is removed, none of its hashes passes, whatever the bloom filter says. */
  lemma RemovedBatchIsBlocked(cfg: Config, st: State, c: Removal, h: Hash, bloomKept: bool)
    requires RemovedIsNewest(st) && RecoverySpec.RemoveBatch(cfg, st, c).1.Ok? && h in c.hashes
    ensures !Passes(RecoverySpec.RemoveBatch(cfg, st, c).0, h, bloomKept)
  {
    hide RemoveAll, RestorationValid;
    var hashes := SortHashes(c.hashes);
    SortIncreasing(c.hashes);
    BatchCaptures(cfg, st, hashes, c.mechanism, c.reason, c.now);
    RemoveAllNewest(cfg, st, hashes, c.mechanism, c.reason, c.now);
    var after, ids := RecoverySpec.RemoveBatch(cfg, st, c).0, RecoverySpec.RemoveBatch(cfg, st, c).1.value;
    var j :| 0 <= j < |hashes| && hashes[j] == h;
    assert Answered(st.catalogue, |st.snapshots|, after, hashes[j], c.mechanism, ids[j]);
    assert NewestSnapshot(after.snapshots, h) == Some(ids[j]);
  }

  // ---------------------------------------------------------------- over whole runs

  /** A state that RemoveBatch and Restore reach while nobody else writes verdicts. */
  ghost predicate Reachable(cfg: Config, st: State) {
    exists start: State, ops: seq<Op> ::
        Initial(start) && (forall op :: op in ops ==> !op.ForeignVerdict?) && st == Run(cfg, start, ops)
  }

  /** In every such state no hash with a removed snapshot is kept, whatever the bloom filter
      has forgotten, and a hash without any snapshot is kept exactly if the bloom filter
      keeps it. */
  lemma RemovedNeverKept(cfg: Config, st: State, all: seq<Hash>, bloomKept: seq<Hash>, h: Hash)
    requires Reachable(cfg, st)
    ensures (exists i :: 0 <= i < |st.snapshots| && st.snapshots[i].hash == h && st.snapshots[i].state == Removed) ==>
      h !in Kept(st, all, bloomKept)
    ensures (forall i :: 0 <= i < |st.snapshots| ==> st.snapshots[i].hash != h) ==>
      (h in Kept(st, all, bloomKept) <==> h in all && h in bloomKept)
  {
    hide Run, Initial, Kept, RestorationValid;
    var start: State, ops: seq<Op> :| Initial(start) && (forall op :: op in ops ==> !op.ForeignVerdict?)
        && st == Run(cfg, start, ops);
    KeptExactly(st, all, bloomKept, h);
    if i :| 0 <= i < |st.snapshots| && st.snapshots[i].hash == h && st.snapshots[i].state == Removed {
      RemovedStaysBlocked(cfg, start, ops, i, h in bloomKept);
    }
  }

  // ------------------------------------------------------------------------- the manager

  /** What stands in front of the recovery store. */
  datatype Front = Front(buffer: set<Hash>, filter: Option<Bloom>, lastFlushedAt: int)

  /** flush: without recovery a filled buffer may not be written, and a failed write keeps
      everything; `written` is the filter stored with the buffer added, None if that failed. */
  function Flushed(attached: bool, f: Front, now: int, written: Option<Bloom>): (Front, Option<Error>) {
    if f.buffer != {} && !attached then (f, Some(Disabled))
    else if written.None? then (f, Some(Conflict))
    else (Front({}, written, now), None)
  }

  class Manager {
    const recovery: Store?
    const maxBufferSize: int
    const maxFlushWait: int
    var buffer: set<Hash>
    var filter: Option<Bloom>
    var lastFlushedAt: int

    constructor (recovery: Store?, maxBufferSize: int, maxFlushWait: int)
      ensures this.recovery == recovery && buffer == {} && filter.None?
    {
      this.recovery, this.maxBufferSize, this.maxFlushWait := recovery, maxBufferSize, maxFlushWait;
      buffer, filter, lastFlushedAt := {}, None, 0;
    }

    function View(): Front
      reads this
    {
      Front(buffer, filter, lastFlushedAt)
    }

    predicate Due(f: Front, now: int) {
      |f.buffer| >= maxBufferSize || now - f.lastFlushedAt >= maxFlushWait
    }

    /** What Filter tests against: flushed first if there is no filter yet or a flush is due. */
    function Current(f: Front, now: int, written: Option<Bloom>): (Front, Option<Error>) {
      if f.filter.None? || Due(f, now) then Flushed(recovery != null, f, now, written) else (f, None)
    }

    /** The answer of Filter once the filter is current. */
    function Answer(hashes: seq<Hash>): Result<seq<Hash>>
      requires filter.Some?
      reads this, recovery
    {
      var bloomKept := BloomKept(buffer, filter.value, hashes);
      if recovery == null then Ok(bloomKept)
      else if !recovery.cfg.enabled then Err(Disabled)
      else if |hashes| > MAX_FILTER then Err(Malformed)
      else Ok(Kept(recovery.View(), hashes, bloomKept))
    }

    method FlushBuffer(now: int, written: Option<Bloom>) returns (error: Option<Error>)
      modifies this
      ensures (View(), error) == Flushed(recovery != null, old(View()), now, written)
      ensures error.None? <==> written.Some? && (old(buffer) == {} || recovery != null)
      ensures error.None? ==> buffer == {} && filter == written && lastFlushedAt == now
      ensures error.Some? ==> buffer == old(buffer) && filter == old(filter) && lastFlushedAt == old(lastFlushedAt)
    {
      if |buffer| > 0 && recovery == null {
        return Some(Disabled);
      }
      if written.None? {
        return Some(Conflict);
      }
      buffer, filter, lastFlushedAt := {}, written, now;
      return None;
    }

    /** Filter: the hashes that pass, in the order and with the repetitions of the input; with
        recovery attached each is decided by the exact rule. */
    method Filter(hashes: seq<Hash>, now: int, written: Option<Bloom>) returns (r: Result<seq<Hash>>)
      modifies this
      ensures View() == Current(old(View()), now, written).0
      ensures var error := Current(old(View()), now, written).1;
        if error.Some? then r == Err(error.value) else filter.Some? && r == Answer(hashes)
      ensures r.Ok? ==> (buffer == {} && lastFlushedAt == now && filter == written)
                        || (|buffer| < maxBufferSize && now - lastFlushedAt < maxFlushWait && View() == old(View()))
      ensures r.Ok? && recovery == null ==> forall h :: h in r.value <==>
        h in hashes && h !in buffer && !filter.value(h)
      ensures r.Ok? && recovery != null ==>
        forall h :: h in r.value <==> h in hashes && Passes(recovery.View(), h, h !in buffer && !filter.value(h))
      ensures r.Ok? && recovery != null && Reachable(recovery.cfg, recovery.View()) ==>
        forall i :: 0 <= i < |recovery.snapshots| && recovery.snapshots[i].state == Removed ==>
            recovery.snapshots[i].hash !in r.value
    {
      hide Passes, Reachable;
      if filter.None? || Due(View(), now) {
        var error := FlushBuffer(now, written);
        if error.Some? {
          return Err(error.value);
        }
      }
      var filtered := [];
      for i := 0 to |hashes|
        invariant filtered == BloomKept(buffer, filter.value, hashes[..i])
      {
        assert hashes[..i + 1][..i] == hashes[..i];
        if hashes[i] in buffer {
          continue;
        }
        if filter.value(hashes[i]) {
          continue;
        }
        filtered := filtered + [hashes[i]];
      }
      assert hashes[..|hashes|] == hashes;
      forall h ensures h in filtered <==> h in hashes && h !in buffer && !filter.value(h) {
        BloomKeptExactly(buffer, filter.value, hashes, h);
      }
      if recovery == null {
        return Ok(filtered);
      }
      r := recovery.Filter(hashes, filtered);
      if r.Ok? {
        forall h ensures h in r.value <==> h in hashes && Passes(recovery.View(), h, h in filtered) {
          KeptExactly(recovery.View(), hashes, filtered, h);
        }
        if Reachable(recovery.cfg, recovery.View()) {
          forall i | 0 <= i < |recovery.snapshots| && recovery.snapshots[i].state == Removed
              ensures recovery.snapshots[i].hash !in r.value {
            RemovedNeverKept(recovery.cfg, recovery.View(), hashes, filtered, recovery.snapshots[i].hash);
          }
        }
      }
    }

    /** The hashes are buffered, and flushed if asked for or due. */
    function Filled(f: Front, hashes: seq<Hash>, flush: bool, now: int, written: Option<Bloom>)
      : (Front, Option<Error>)
    {
      var filled := f.(buffer := f.buffer + set h | h in hashes);
      if flush || Due(filled, now) then Flushed(recovery != null, filled, now, written) else (filled, None)
    }

    /** Block: nothing is buffered unless the removal has committed. */
    method Block(c: Removal, flush: bool, now: int, written: Option<Bloom>) returns (error: Option<Error>)
      modifies this, recovery
      ensures recovery != null && c.hashes == [] ==> recovery.View() == old(recovery.View())
      ensures recovery != null && c.hashes != [] ==>
        recovery.View() == RecoverySpec.RemoveBatch(recovery.cfg, old(recovery.View()), c).0
      ensures c.hashes != [] && recovery == null ==> error == Some(Disabled) && View() == old(View())
      ensures (c.hashes != [] && recovery != null
               && RecoverySpec.RemoveBatch(recovery.cfg, old(recovery.View()), c).1.Err?) ==>
        error == Some(RecoverySpec.RemoveBatch(recovery.cfg, old(recovery.View()), c).1.error) && View() == old(View())
      ensures (c.hashes == []
               || (recovery != null && RecoverySpec.RemoveBatch(recovery.cfg, old(recovery.View()), c).1.Ok?)) ==>
        (View(), error) == Filled(old(View()), c.hashes, flush, now, written)
      ensures error.None? ==>
        || (buffer == {} && filter == written && lastFlushedAt == now)
        || (!flush && |buffer| < maxBufferSize && now - lastFlushedAt < maxFlushWait
            && buffer == old(buffer) + (set h | h in c.hashes) && filter == old(filter))
    {
      if |c.hashes| > 0 && recovery == null {
        return Some(Disabled);
      }
      if |c.hashes| > 0 {
        var r := recovery.RemoveBatch(c);
        if r.Err? {
          return Some(r.error);
        }
      }
      AddHashes(c.hashes);
      error := None;
      if flush || Due(View(), now) {
        error := FlushBuffer(now, written);
      }
    }

    /** The loop of Block over its hashes. */
    method AddHashes(hashes: seq<Hash>)
      modifies this`buffer
      ensures buffer == old(buffer) + set h | h in hashes
    {
      for i := 0 to |hashes|
        invariant buffer == old(buffer) + set h | h in hashes[..i]
      {
        buffer := buffer + {hashes[i]};
        assert hashes[..i + 1] == hashes[..i] + [hashes[i]];
      }
      assert hashes[..|hashes|] == hashes;
    }

    /** An empty buffer is not flushed; a failed flush keeps the buffer. */
    method Flush(now: int, written: Option<Bloom>) returns (error: Option<Error>)
      modifies this
      ensures (View(), error) ==
        if old(buffer) == {} then (old(View()), None) else Flushed(recovery != null, old(View()), now, written)
    {
      if |buffer| == 0 {
        return None;
      }
      error := FlushBuffer(now, written);
    }
  }
}
