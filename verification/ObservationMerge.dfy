/**
mergeObservations: a torrent's remembered observations and its new ones become one list,
capped in length without losing the positive that protects the torrent.
*/
module ObservationMerge {
  import opened Options
  import opened Sorting
  import opened Availability
  import opened AvailabilityLaws

  const MAX_OBSERVATIONS := 64

  predicate NewestFirst(a: Observation, b: Observation) {
    a.observedAt > b.observedAt || (a.observedAt == b.observedAt && TextLeq(a.id, b.id))
  }

  lemma NewestFirstIsOrder()
    ensures TotalPreorder(NewestFirst)
  {
    forall a: Observation, b: Observation ensures NewestFirst(a, b) || NewestFirst(b, a) {
      TextLeqTotal(a.id, b.id);
    }
    forall a: Observation, b: Observation, c: Observation | NewestFirst(a, b) && NewestFirst(b, c)
        ensures NewestFirst(a, c) {
      if a.observedAt == b.observedAt == c.observedAt { TextLeqTransitive(a.id, b.id, c.id); }
    }
  }

  predicate Mergeable(o: Observation, now: Time, cfg: Config) {
    !o.isPrivate && o.observedAt <= now && now - o.observedAt <= cfg.recentPositiveFor
  }

  /** The mergeable observations, the first of every identifier. */
  function Union(list: seq<Observation>, now: Time, cfg: Config): seq<Observation> {
    if list == [] then [] else
    var out, o := Union(list[..|list| - 1], now, cfg), list[|list| - 1];
    if Mergeable(o, now, cfg) && !Seen(out, o.id) then out + [o] else out
  }

  predicate Protecting(o: Observation, now: Time, cfg: Config) {
    && o.kind == Positive && o.qualified && |o.id| > 0 && |o.source| > 0 && o.observedAt != 0
    && o.expiresAt > o.observedAt && now - o.observedAt < cfg.recentPositiveFor
  }

  /** The position of the first protecting positive at or after `from`, or -1. */
  function FirstProtecting(list: seq<Observation>, now: Time, cfg: Config, from: nat): (k: int)
    requires from <= |list|
    ensures k == -1 || (from <= k < |list| && Protecting(list[k], now, cfg))
    ensures forall i :: from <= i < |list| && (k == -1 || i < k) ==> !Protecting(list[i], now, cfg)
    decreases |list| - from
  {
    if from == |list| then -1 else if Protecting(list[from], now, cfg) then from
        else FirstProtecting(list, now, cfg, from + 1)
  }

  /** The newest 64, the last of them giving way to the newest protecting positive if that is
      older. */
  function Capped(list: seq<Observation>, now: Time, cfg: Config): seq<Observation> {
    if |list| <= MAX_OBSERVATIONS then list else
    var k := FirstProtecting(list, now, cfg, 0);
    if k >= MAX_OBSERVATIONS then list[..MAX_OBSERVATIONS - 1] + [list[k]] else list[..MAX_OBSERVATIONS]
  }

  ghost predicate DistinctIds(list: seq<Observation>) {
    forall i, j :: 0 <= i < j < |list| ==> list[i].id != list[j].id
  }

  /** The capped form of one of the newest-first arrangements of the union. */
  ghost predicate Merges(current: seq<Observation>, previous: seq<Observation>, now: Time, cfg: Config,
      merged: seq<Observation>) {
    exists full :: Arranged(full, Union(current + previous, now, cfg), NewestFirst) && merged == Capped(full, now, cfg)
  }

  // -------------------------------------------------------------------- the source's loops

  method MergeObservations(current: seq<Observation>, previous: seq<Observation>, now: Time, cfg: Config)
    returns (merged: seq<Observation>)
    ensures Merges(current, previous, now, cfg, merged)
  {
    hide Union, NewestFirst, Protecting, FirstProtecting;
    var out := Unite(current, previous, now, cfg);
    NewestFirstIsOrder();
    merged := Sort(out, NewestFirst);
    ghost var full := merged;
    if |merged| > MAX_OBSERVATIONS {
      var positive := FindProtecting(merged, now, cfg);
      if positive >= MAX_OBSERVATIONS {
        merged := merged[MAX_OBSERVATIONS - 1 := merged[positive]];
      }
      merged := merged[..MAX_OBSERVATIONS];
    }
    assert Arranged(full, Union(current + previous, now, cfg), NewestFirst) && merged == Capped(full, now, cfg);
  }

  /** The two lists in turn, the first of every identifier. */
  method Unite(current: seq<Observation>, previous: seq<Observation>, now: Time, cfg: Config)
      returns (out: seq<Observation>)
    ensures out == Union(current + previous, now, cfg)
  {
    hide Seen, Union;
    var seen: set<string> := {};
    out := [];
    NothingSeen();
    NothingUnited(now, cfg);
    ghost var done := [];
    for l := 0 to 2
      invariant done == if l == 0 then [] else if l == 1 then current else current + previous
      invariant out == Union(done, now, cfg) && forall id :: id in seen <==> Seen(out, id)
    {
      var list := if l == 0 then current else previous;
      ghost var before := done;
      for i := 0 to |list|
        invariant done == before + list[..i]
        invariant out == Union(done, now, cfg) && forall id :: id in seen <==> Seen(out, id)
      {
        var o := list[i];
        UnionOneMore(done, o, now, cfg);
        done := done + [o];
        assert list[..i + 1] == list[..i] + [o];
        if o.id in seen || o.isPrivate || o.observedAt > now || now - o.observedAt > cfg.recentPositiveFor {
          continue;
        }
        seen := seen + {o.id};
        SeenOneMore(out, o);
        out := out + [o];
      }
      assert list[..|list|] == list;
    }
  }

  lemma NothingUnited(now: Time, cfg: Config)
    ensures Union([], now, cfg) == []
  {
  }

  lemma UnionOneMore(list: seq<Observation>, o: Observation, now: Time, cfg: Config)
    ensures Union(list + [o], now, cfg) ==
      if Mergeable(o, now, cfg) && !Seen(Union(list, now, cfg), o.id) then Union(list, now, cfg) + [o]
      else Union(list, now, cfg)
  {
    hide Seen, Mergeable;
    assert (list + [o])[..|list|] == list;
  }

  lemma NothingSeen()
    ensures forall id :: !Seen([], id)
  {
  }

  method FindProtecting(list: seq<Observation>, now: Time, cfg: Config) returns (positive: int)
    ensures positive == FirstProtecting(list, now, cfg, 0)
  {
    positive := -1;
    for i := 0 to |list|
      invariant positive == -1 && FirstProtecting(list, now, cfg, 0) == FirstProtecting(list, now, cfg, i)
    {
      if Protecting(list[i], now, cfg) {
        positive := i;
        break;
      }
    }
  }

  // ------------------------------------------------------------------------- what is kept

  lemma {:induction false} UnionDistinct(list: seq<Observation>, now: Time, cfg: Config)
    ensures var u := Union(list, now, cfg);
      && DistinctIds(u) && (forall o :: o in u ==> o in list && Mergeable(o, now, cfg))
      && (forall o :: o in list && Mergeable(o, now, cfg) ==> Seen(u, o.id))
    decreases |list|
  {
    hide Mergeable;
    if list != [] {
      var rest, o := list[..|list| - 1], list[|list| - 1];
      assert list == rest + [o];
      UnionDistinct(rest, now, cfg);
      SeenOneMore(Union(rest, now, cfg), o);
    }
  }

  /** Distinct identifiers survive reordering. */
  lemma DistinctInAnyOrder(list: seq<Observation>, order: seq<Observation>)
    requires DistinctIds(list) && multiset(list) == multiset(order)
    ensures DistinctIds(order)
  {
    forall i, j | 0 <= i < j < |order| ensures order[i].id != order[j].id {
      assert order[i] in multiset(order) && order[j] in multiset(order);
      assert order[i] in list && order[j] in list;
      var a :| 0 <= a < |list| && list[a] == order[i];
      var b :| 0 <= b < |list| && list[b] == order[j];
      if order[i].id == order[j].id {
        assert a == b;
        OnceCounted(list, a);
        TwiceCounted(order, i, j);
      }
    }
  }

  lemma TwiceCounted(list: seq<Observation>, i: int, j: int)
    requires 0 <= i < j < |list| && list[i] == list[j]
    ensures multiset(list)[list[i]] >= 2
  {
    assert list == list[..j] + list[j..];
    assert list[i] in multiset(list[..j]) by { assert list[..j][i] == list[i]; }
    assert list[i] in multiset(list[j..]) by { assert list[j..][0] == list[i]; }
  }

  lemma OnceCounted(list: seq<Observation>, a: int)
    requires DistinctIds(list) && 0 <= a < |list|
    ensures multiset(list)[list[a]] == 1
  {
    var x := list[a];
    assert list == list[..a] + [x] + list[a + 1..];
    assert x !in list[..a] && x !in list[a + 1..];
  }

  /** The capped merge: at most 64, distinct identifiers, newest first, nothing invented. */
  lemma CappedShape(list: seq<Observation>, now: Time, cfg: Config)
    requires Sorted(list, NewestFirst) && DistinctIds(list)
    ensures var c := Capped(list, now, cfg);
      |c| <= MAX_OBSERVATIONS && DistinctIds(c) && Sorted(c, NewestFirst) && forall o :: o in c ==> o in list
  {
    hide NewestFirst;
  }

  /** Capping keeps a protecting positive at least as new as any the uncapped merge holds. */
  lemma CappedProtects(list: seq<Observation>, now: Time, cfg: Config, p: Observation)
    requires Sorted(list, NewestFirst) && p in list && Protecting(p, now, cfg)
    ensures exists q :: q in Capped(list, now, cfg) && Protecting(q, now, cfg) && q.observedAt >= p.observedAt
  {
    var i :| 0 <= i < |list| && list[i] == p;
    var k := FirstProtecting(list, now, cfg, 0);
    assert k <= i;
    var q := list[k];
    assert q.observedAt >= p.observedAt by { if k < i { assert NewestFirst(list[k], list[i]); } }
    var c := Capped(list, now, cfg);
    if |list| > MAX_OBSERVATIONS && k >= MAX_OBSERVATIONS {
      assert c[MAX_OBSERVATIONS - 1] == q;
    } else {
      assert c[k] == q;
    }
  }

  /** A protecting positive in the list, under an identifier of its own, rules out suspicion. */
  lemma ProtectedNeverSuspected(order: seq<Observation>, now: Time, cfg: Config, q: Observation)
    requires DistinctIds(order) && q in order && Protecting(q, now, cfg) && q.observedAt > 0 && q.observedAt <= now
      && !q.isPrivate
    ensures Evaluate(order, now, cfg).verdict != SuspectedUnavailable
  {
    hide Accept, Eligible, Greedy, ExpiryOf, Ids, LastPositive, FreshPositives;
    AcceptHas(order, now, q);
    LastPositiveIsMax(Accept(order, now));
  }

  /** If the uncapped merge holds a protecting positive, evaluating the capped merge, in
      whatever order, never suspects the torrent. */
  lemma CappedMergeNeverSuspected(current: seq<Observation>, previous: seq<Observation>, now: Time, cfg: Config,
                                  full: seq<Observation>, order: seq<Observation>, p: Observation)
    requires Arranged(full, Union(current + previous, now, cfg), NewestFirst)
    requires multiset(order) == multiset(Capped(full, now, cfg))
    requires p in full && Protecting(p, now, cfg) && p.observedAt > 0
    ensures Evaluate(order, now, cfg).verdict != SuspectedUnavailable
  {
    hide Capped, Evaluate, Union, NewestFirst, Protecting;
    UnionDistinct(current + previous, now, cfg);
    DistinctInAnyOrder(Union(current + previous, now, cfg), full);
    CappedShape(full, now, cfg);
    DistinctInAnyOrder(Capped(full, now, cfg), order);
    CappedProtects(full, now, cfg, p);
    var q :| q in Capped(full, now, cfg) && Protecting(q, now, cfg) && q.observedAt >= p.observedAt;
    MemberInAnyOrder(Capped(full, now, cfg), order, q);
    MemberInAnyOrder(full, Union(current + previous, now, cfg), q);
    assert Mergeable(q, now, cfg);
    ProtectedNeverSuspected(order, now, cfg, q);
  }

  /** Merging and then evaluating never suspects a torrent while the merge, before the cap,
      holds a protecting positive. */
  lemma MergedNeverSuspected(current: seq<Observation>, previous: seq<Observation>, now: Time, cfg: Config,
                             merged: seq<Observation>, d: Decision, p: Observation)
    requires Merges(current, previous, now, cfg, merged) && Decides(merged, now, cfg, d)
    requires p in Union(current + previous, now, cfg) && Protecting(p, now, cfg) && p.observedAt > 0
    ensures d.verdict != SuspectedUnavailable
  {
    hide Union, Capped, Evaluate, NewestFirst, OldestFirst, Protecting;
    var full: seq<Observation> :| Arranged(full, Union(current + previous, now, cfg), NewestFirst)
        && merged == Capped(full, now, cfg);
    var order: seq<Observation> :| Arranged(order, merged, OldestFirst) && d == Evaluate(order, now, cfg);
    MemberInAnyOrder(Union(current + previous, now, cfg), full, p);
    CappedMergeNeverSuspected(current, previous, now, cfg, full, order, p);
  }

  // -------------------------------------------------------------- nothing is dropped needlessly

  /** Public, not in the future, and no older than the protection of a positive. */
  ghost predicate WorthKeeping(o: Observation, now: Time, cfg: Config) {
    !o.isPrivate && o.observedAt <= now && now <= o.observedAt + cfg.recentPositiveFor
  }

  /** The first observation worth keeping under an identifier. */
  function FirstNamed(list: seq<Observation>, now: Time, cfg: Config, id: string): Option<Observation> {
    if list == [] then None
    else if list[0].id == id && !list[0].isPrivate
        && list[0].observedAt <= now && now <= list[0].observedAt + cfg.recentPositiveFor
    then Some(list[0])
    else FirstNamed(list[1..], now, cfg, id)
  }

  lemma {:induction false} FirstNamedAppend(list: seq<Observation>, o: Observation, now: Time, cfg: Config, id: string)
    ensures FirstNamed(list + [o], now, cfg, id) ==
      if FirstNamed(list, now, cfg, id).Some? then FirstNamed(list, now, cfg, id)
      else if o.id == id && WorthKeeping(o, now, cfg) then Some(o) else None
    decreases |list|
  {
    if list == [] {
      assert (list + [o])[1..] == [];
    } else {
      FirstNamedAppend(list[1..], o, now, cfg, id);
      assert (list + [o])[1..] == list[1..] + [o];
    }
  }

  /** The union holds exactly the first observation worth keeping of every identifier, those just
      made before those remembered. */
  lemma {:induction false} UnionExactly(list: seq<Observation>, now: Time, cfg: Config, o: Observation)
    ensures o in Union(list, now, cfg) <==> FirstNamed(list, now, cfg, o.id) == Some(o)
    ensures Seen(Union(list, now, cfg), o.id) <==> FirstNamed(list, now, cfg, o.id).Some?
    decreases |list|
  {
    if list != [] {
      var rest, last := list[..|list| - 1], list[|list| - 1];
      assert list == rest + [last];
      UnionExactly(rest, now, cfg, o);
      FirstNamedAppend(rest, last, now, cfg, o.id);
      SeenOneMore(Union(rest, now, cfg), last);
      if last.id == o.id { UnionExactly(rest, now, cfg, last); }
    }
  }

  /** A positive, qualified and named, inside the protected window. */
  ghost predicate Guardian(o: Observation, now: Time, cfg: Config) {
    && o.kind == Positive && o.qualified && o.id != "" && o.source != "" && o.observedAt != 0
    && o.observedAt < o.expiresAt && now < o.observedAt + cfg.recentPositiveFor
  }

  ghost predicate FirstGuardian(list: seq<Observation>, now: Time, cfg: Config, i: int)
    requires 0 <= i < |list|
  {
    Guardian(list[i], now, cfg) && forall j :: 0 <= j < i ==> !Guardian(list[j], now, cfg)
  }

  /** Up to 64 observations are all kept; of more, the newest 63 always are, and the last place goes
      to the 64th unless only an older one is a guardian, and then to the newest guardian. */
  lemma CappedExactly(list: seq<Observation>, now: Time, cfg: Config)
    ensures |list| <= 64 ==> Capped(list, now, cfg) == list
    ensures |list| > 64 ==>
      var c := Capped(list, now, cfg);
      && |c| == 64 && c[..63] == list[..63]
      && ((exists i :: 0 <= i < 64 && Guardian(list[i], now, cfg)) ==> c[63] == list[63])
      && ((forall i :: 0 <= i < |list| ==> !Guardian(list[i], now, cfg)) ==> c[63] == list[63])
      && (forall i :: 64 <= i < |list| && FirstGuardian(list, now, cfg, i) ==> c[63] == list[i])
  {
    forall i | 0 <= i < |list| ensures Protecting(list[i], now, cfg) <==> Guardian(list[i], now, cfg) {
    }
    hide Protecting, Guardian, FirstProtecting;
  }
}
