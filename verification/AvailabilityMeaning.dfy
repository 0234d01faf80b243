/**
What every decision of EvaluateAvailability says about the observations it was given, state by
state, in the plain terms of the observations.
*/
module AvailabilityMeaning {
  import opened Options
  import opened Sorting
  import opened Availability
  import opened AvailabilityLaws

  // -------------------------------------------------------------- observations, in plain terms

  /** Public, named, and observed no later than now. */
  ghost predicate Trustworthy(o: Observation, now: Time) {
    && !o.isPrivate && o.id != "" && o.source != ""
    && o.observedAt != 0 && o.observedAt <= now && o.observedAt < o.expiresAt
  }

  /** Neither expired nor too old. */
  ghost predicate Alive(o: Observation, now: Time, cfg: Config) {
    now < o.expiresAt && now < o.observedAt + cfg.freshFor
  }

  ghost predicate Seeded(o: Observation) { o.qualified && o.kind == Positive }
  ghost predicate Unseeded(o: Observation) { o.qualified && (o.kind == Zero || o.kind == Stall) }
  ghost predicate Unclear(o: Observation) { !o.qualified || o.kind == UnknownClass }

  ghost predicate Usable(cfg: Config) {
    && cfg.freshFor > 0 && cfg.recentPositiveFor > 0 && cfg.minimumSpan > 0 && cfg.minimumGap > 0
    && cfg.minimumObservations > 1
  }

  lemma PlainTerms(o: Observation, now: Time, cfg: Config)
    ensures Admissible(o, now) <==> Trustworthy(o, now)
    ensures Fresh(o, now, cfg) <==> Alive(o, now, cfg)
    ensures (IsPositive(o) <==> Seeded(o)) && (IsNegative(o) <==> Unseeded(o)) && (IsUnknown(o) <==> Unclear(o))
    ensures ValidThresholds(cfg) <==> Usable(cfg)
  {
  }

  /** The moment an observation stops being alive. */
  ghost function EndOf(o: Observation, cfg: Config): Time {
    if o.expiresAt < o.observedAt + cfg.freshFor then o.expiresAt else o.observedAt + cfg.freshFor
  }

  // ------------------------------------------------------------------- what cannot matter

  /** An observation that is private, nameless, undated, in the future or expired before it was
      made changes nothing, wherever it stands. */
  lemma {:induction false} UntrustworthyIgnored(before: seq<Observation>, o: Observation, after: seq<Observation>,
                                                now: Time)
    requires !Trustworthy(o, now)
    ensures Accept(before + [o] + after, now) == Accept(before + after, now)
    decreases |after|
  {
    hide Seen;
    var all := before + [o] + after;
    if after == [] {
      assert all[..|all| - 1] == before && all[|all| - 1] == o && before + after == before;
    } else {
      var rest, last := after[..|after| - 1], after[|after| - 1];
      UntrustworthyIgnored(before, o, rest, now);
      assert all[..|all| - 1] == before + [o] + rest && (before + after)[..|before + after| - 1] == before + rest;
    }
  }

  /** So does one under an identifier that a trustworthy observation before it already has. */
  lemma {:induction false} RepeatedIgnored(before: seq<Observation>, o: Observation, after: seq<Observation>, now: Time)
    requires exists p :: p in before && Trustworthy(p, now) && p.id == o.id
    ensures Accept(before + [o] + after, now) == Accept(before + after, now)
    decreases |after|
  {
    if after == [] {
      assert before + [o] + after == before + [o] && before + after == before;
      assert (before + [o])[..|before|] == before;
      NamedBefore(before, o.id, now);
    } else {
      var n := |after| - 1;
      RepeatedIgnored(before, o, after[..n], now);
      assert (before + [o] + after)[..|before| + 1 + n] == before + [o] + after[..n];
      assert (before + after)[..|before| + n] == before + after[..n];
    }
  }

  lemma {:induction false} NamedBefore(list: seq<Observation>, id: string, now: Time)
    requires exists p :: p in list && Trustworthy(p, now) && p.id == id
    ensures Seen(Accept(list, now), id)
    decreases |list|
  {
    var n := |list| - 1;
    var p :| p in list && Trustworthy(p, now) && p.id == id;
    assert list == list[..n] + [list[n]];
    var acc := Accept(list[..n], now);
    if p in list[..n] {
      NamedBefore(list[..n], id, now);
      var i :| 0 <= i < |acc| && acc[i].id == id;
      assert Accept(list, now)[i].id == id;
    } else {
      assert list[n] == p;
      var whole := Accept(list, now);
      if !Seen(acc, id) { assert whole[|acc|].id == id; }
    }
  }

  /** And one under an identifier of its own is accepted if it is trustworthy. */
  lemma TrustworthyAccepted(before: seq<Observation>, o: Observation, now: Time)
    requires Trustworthy(o, now) && forall p :: p in before ==> p.id != o.id
    ensures Accept(before + [o], now) == Accept(before, now) + [o]
  {
    assert (before + [o])[..|before|] == before;
    AcceptedFrom(before, now);
  }

  lemma {:induction false} AcceptedFrom(list: seq<Observation>, now: Time)
    ensures forall i :: 0 <= i < |Accept(list, now)| ==> Accept(list, now)[i] in list
    decreases |list|
  {
    if list != [] {
      AcceptedFrom(list[..|list| - 1], now);
      assert list == list[..|list| - 1] + [list[|list| - 1]];
    }
  }

  /** Whatever the observations, unusable thresholds decide nothing. */
  lemma UnusableThresholds(input: seq<Observation>, now: Time, cfg: Config, d: Decision)
    requires Decides(input, now, cfg, d)
    ensures d.reason == InvalidThresholds <==> !Usable(cfg)
    ensures !Usable(cfg) ==> d == Decision(UnknownStale, InvalidThresholds, now, [])
  {
    hide Accept, Eligible, Greedy, FreshPositives, LastPositive, Ids, ExpiryOf;
  }

  // ----------------------------------------------------------------------- a fresh positive

  ghost predicate SeededNow(input: seq<Observation>, now: Time, cfg: Config, p: Observation) {
    p in input && Trustworthy(p, now) && Seeded(p) && Alive(p, now, cfg)
  }

  /** p is the newest of them, the greatest identifier among equally new. */
  ghost predicate NewestSeeded(input: seq<Observation>, now: Time, cfg: Config, p: Observation) {
    && SeededNow(input, now, cfg, p)
    && forall q :: SeededNow(input, now, cfg, q) ==>
         q.observedAt < p.observedAt || (q.observedAt == p.observedAt && TextLeq(q.id, p.id))
  }

  lemma {:induction false} FreshPositivesAre(acc: seq<Observation>, now: Time, cfg: Config)
    requires Sorted(acc, OldestFirst)
    ensures var list := FreshPositives(acc, now, cfg);
      && Sorted(list, OldestFirst) && forall o :: o in list <==> o in acc && IsPositive(o) && Fresh(o, now, cfg)
    decreases |acc|
  {
    hide OldestFirst, IsPositive, Fresh;
    if acc != [] {
      var rest, o := acc[..|acc| - 1], acc[|acc| - 1];
      assert acc == rest + [o];
      FreshPositivesAre(rest, now, cfg);
      var list := FreshPositives(rest, now, cfg);
      forall i | 0 <= i < |list| ensures OldestFirst(list[i], o) {
        assert list[i] in rest;
        var j :| 0 <= j < |rest| && rest[j] == list[i];
        assert acc[j] == list[i];
      }
    }
  }

  lemma {:induction false} AcceptSorted(order: seq<Observation>, now: Time)
    requires Sorted(order, OldestFirst)
    ensures Sorted(Accept(order, now), OldestFirst)
    decreases |order|
  {
    hide OldestFirst, Admissible, Seen;
    if order != [] {
      var rest, o := order[..|order| - 1], order[|order| - 1];
      assert order == rest + [o];
      AcceptSorted(rest, now);
      AcceptedFrom(rest, now);
      var list := Accept(rest, now);
      forall i | 0 <= i < |list| ensures OldestFirst(list[i], o) {
        assert list[i] in rest;
        var j :| 0 <= j < |rest| && rest[j] == list[i];
        assert order[j] == list[i];
      }
    }
  }

  /** The state is fresh_positive exactly if the thresholds are usable and some trustworthy
      positive is alive; then the decision names the newest of them and lasts as long as it. */
  lemma FreshPositiveExactly(input: seq<Observation>, now: Time, cfg: Config, d: Decision)
    requires Decides(input, now, cfg, d) && DifferentIds(input)
    ensures d.verdict == FreshPositive <==> Usable(cfg) && exists p :: SeededNow(input, now, cfg, p)
    ensures d.verdict == FreshPositive ==>
      d.reason == FreshPublicPositive && d.expiresAt > now
      && exists p :: NewestSeeded(input, now, cfg, p) && d.ids == [p.id] && d.expiresAt == EndOf(p, cfg)
  {
    hide Accept, Evaluate, FreshPositives, OldestFirst, Admissible, Trustworthy, NewestSeeded, EndOf, FreshUntil,
      Usable;
    var order: seq<Observation> :| Arranged(order, input, OldestFirst) && d == Evaluate(order, now, cfg);
    AcceptedExactly(input, order, now);
    AcceptSorted(order, now);
    var acc := Accept(order, now);
    FreshPositivesAre(acc, now, cfg);
    PositiveJudged(order, now, cfg);
    var list := FreshPositives(acc, now, cfg);
    forall o ensures o in list <==> SeededNow(input, now, cfg, o) { PlainTerms(o, now, cfg); }
    if list != [] {
      assert list[|list| - 1] in list;
      LastIsNewest(input, now, cfg, list);
      EndIs(list[|list| - 1], cfg);
    }
  }

  /** Only a fresh positive makes the state positive, and the last one is named. */
  lemma PositiveJudged(order: seq<Observation>, now: Time, cfg: Config)
    ensures var list, d := FreshPositives(Accept(order, now), now, cfg), Evaluate(order, now, cfg);
      && (d.verdict == FreshPositive <==> Usable(cfg) && list != [])
      && (d.verdict == FreshPositive ==>
            var p := list[|list| - 1];
            d == Decision(FreshPositive, FreshPublicPositive, FreshUntil(p, cfg), [p.id]))
  {
    hide Accept, Eligible, Greedy, FreshPositives, LastPositive, Ids, ExpiryOf, Repeated, Protects, FreshUntil;
    PlainThresholds(cfg);
  }

  lemma EndIs(o: Observation, cfg: Config)
    ensures FreshUntil(o, cfg) == EndOf(o, cfg)
  {
  }

  lemma LastIsNewest(input: seq<Observation>, now: Time, cfg: Config, list: seq<Observation>)
    requires list != [] && Sorted(list, OldestFirst) && forall o :: o in list <==> SeededNow(input, now, cfg, o)
    ensures NewestSeeded(input, now, cfg, list[|list| - 1]) && EndOf(list[|list| - 1], cfg) > now
  {
    hide OldestFirst, TextLeq, Trustworthy;
    var p := list[|list| - 1];
    assert p in list;
    forall q | SeededNow(input, now, cfg, q)
      ensures q.observedAt < p.observedAt || (q.observedAt == p.observedAt && TextLeq(q.id, p.id))
    {
      InSortedOrder(list, q);
    }
  }

  lemma InSortedOrder(list: seq<Observation>, q: Observation)
    requires Sorted(list, OldestFirst) && q in list
    ensures var p := list[|list| - 1];
      q.observedAt < p.observedAt || (q.observedAt == p.observedAt && TextLeq(q.id, p.id))
  {
    var i :| 0 <= i < |list| && list[i] == q;
    if i == |list| - 1 { TextLeqTotal(q.id, q.id); }
  }

  // --------------------------------------------------------------------- the kept negatives

  /** A trustworthy negative that is alive and later than every trustworthy positive or unclear
      observation. */
  ghost predicate Against(input: seq<Observation>, now: Time, cfg: Config, o: Observation) {
    && o in input && Trustworthy(o, now) && Unseeded(o) && Alive(o, now, cfg) && o.observedAt > 0
    && forall p :: p in input && Trustworthy(p, now) && (Seeded(p) || Unclear(p)) ==> p.observedAt < o.observedAt
  }

  lemma AgainstExactly(input: seq<Observation>, now: Time, cfg: Config, o: Observation)
    ensures CountsAgainst(input, now, cfg, o) <==> Against(input, now, cfg, o)
  {
    hide Admissible, Trustworthy, Fresh, Alive, IsPositive, IsNegative, IsUnknown, Seeded, Unseeded, Unclear;
    PlainTerms(o, now, cfg);
    forall p ensures Admissible(p, now) <==> Trustworthy(p, now)
             ensures (IsPositive(p) <==> Seeded(p)) && (IsUnknown(p) <==> Unclear(p)) { PlainTerms(p, now, cfg); }
  }

  /** Observations against the torrent, oldest first and a gap apart, that leave none of the others
      more than a gap after one of them. */
  ghost predicate ThinnedFrom(input: seq<Observation>, now: Time, cfg: Config, kept: seq<Observation>) {
    && (forall o :: o in kept ==> Against(input, now, cfg, o))
    && (forall i, j :: 0 <= i < j < |kept| ==> kept[j].observedAt - kept[i].observedAt >= cfg.minimumGap)
    && (forall o :: Against(input, now, cfg, o) ==>
          exists i :: 0 <= i < |kept| && kept[i].observedAt <= o.observedAt < kept[i].observedAt + cfg.minimumGap)
  }

  /** The identifiers of the kept observations, in order, and the earliest of their ends. */
  ghost predicate Describes(kept: seq<Observation>, cfg: Config, d: Decision) {
    && |d.ids| == |kept| && (forall i :: 0 <= i < |kept| ==> d.ids[i] == kept[i].id)
    && (forall o :: o in kept ==> d.expiresAt <= EndOf(o, cfg))
    && exists o :: o in kept && d.expiresAt == EndOf(o, cfg)
  }

  lemma {:induction false} IdsAre(kept: seq<Observation>)
    ensures |Ids(kept)| == |kept| && forall i :: 0 <= i < |kept| ==> Ids(kept)[i] == kept[i].id
    decreases |kept|
  {
    if kept != [] {
      var rest := kept[..|kept| - 1];
      IdsAre(rest);
      forall i | 0 <= i < |kept| ensures Ids(kept)[i] == kept[i].id {
        if i < |rest| { assert Ids(kept)[i] == Ids(rest)[i] && rest[i] == kept[i]; }
      }
    }
  }

  lemma {:induction false} ExpiryIs(kept: seq<Observation>, cfg: Config)
    requires kept != []
    ensures (forall o :: o in kept ==> ExpiryOf(kept, cfg) <= EndOf(o, cfg))
    ensures exists o :: o in kept && ExpiryOf(kept, cfg) == EndOf(o, cfg)
    decreases |kept|
  {
    hide FreshUntil, EndOf;
    var rest, o := kept[..|kept| - 1], kept[|kept| - 1];
    EndIs(o, cfg);
    assert kept == rest + [o] && o in kept;
    if |kept| > 1 {
      ExpiryIs(rest, cfg);
      var x :| x in rest && ExpiryOf(rest, cfg) == EndOf(x, cfg);
      assert x in kept;
    } else {
      assert rest == [];
    }
  }

  /** A positive still protects the torrent. */
  ghost predicate Sheltered(input: seq<Observation>, now: Time, cfg: Config) {
    exists p :: p in input && Trustworthy(p, now) && Seeded(p) && p.observedAt > 0
      && now < p.observedAt + cfg.recentPositiveFor
  }

  lemma ShelteredExactly(input: seq<Observation>, acc: seq<Observation>, now: Time, cfg: Config)
    requires forall o :: o in acc <==> o in input && Admissible(o, now)
    ensures Protects(LastPositive(acc), now, cfg) <==> Sheltered(input, now, cfg)
  {
    hide LastPositive, Admissible, Trustworthy;
    LastPositiveIsMax(acc);
    forall p ensures (Admissible(p, now) <==> Trustworthy(p, now)) && (IsPositive(p) <==> Seeded(p)) {
      PlainTerms(p, now, cfg);
    }
  }

  /** What the decision is once the negatives are thinned. */
  ghost predicate Judges(input: seq<Observation>, now: Time, cfg: Config, kept: seq<Observation>, d: Decision)
    requires kept != []
  {
    var first, last := kept[0], kept[|kept| - 1];
    var enough := |kept| >= cfg.minimumObservations && last.observedAt - first.observedAt >= cfg.minimumSpan;
    if Sheltered(input, now, cfg) then
      d.reason == RecentPositiveProtects && d.verdict == (if last.kind == Stall then UnknownStale else FreshKnownZero)
    else if enough then d.reason == RepeatedNegative && d.verdict == SuspectedUnavailable
    else if last.kind == Stall then d.reason == ClientStall && d.verdict == UnknownStale
    else d.reason == SingleQualifiedZero && d.verdict == FreshKnownZero
  }

  /** Without a fresh positive, the decision is unknown until now if nothing counts against the
      torrent; otherwise it describes the thinned negatives and is judged by them: protected by a
      recent positive, suspected, stalled by the latest, or a known zero. */
  lemma NegativeExactly(input: seq<Observation>, now: Time, cfg: Config, d: Decision)
    requires Decides(input, now, cfg, d) && DifferentIds(input) && Usable(cfg)
    requires forall p :: !SeededNow(input, now, cfg, p)
    ensures (forall o :: !Against(input, now, cfg, o)) ==> d == Decision(UnknownStale, NoFreshQualified, now, [])
    ensures (exists o :: Against(input, now, cfg, o)) ==>
      d.expiresAt > now
      && exists kept :: kept != [] && ThinnedFrom(input, now, cfg, kept) && Describes(kept, cfg, d)
           && Judges(input, now, cfg, kept, d)
  {
    hide Accept, Eligible, Greedy, FreshPositives, LastPositive, Ids, ExpiryOf, OldestFirst, Protects, Sheltered,
        Against, ThinnedFrom, Describes, SeededNow, EndOf, Usable;
    PlainThresholds(cfg);
    var order: seq<Observation> :| Arranged(order, input, OldestFirst) && d == Evaluate(order, now, cfg);
    var acc := Accept(order, now);
    AcceptedExactly(input, order, now);
    NoFresh(input, acc, now, cfg);
    ShelteredExactly(input, acc, now, cfg);
    var kept := Greedy(Eligible(acc, now, cfg), cfg.minimumGap);
    ThinnedHere(input, order, now, cfg);
    if kept != [] {
      DescribesKept(kept, cfg, d);
      AliveUntil(input, now, cfg, kept, d);
    }
  }

  lemma PlainThresholds(cfg: Config)
    ensures ValidThresholds(cfg) <==> Usable(cfg)
    ensures Usable(cfg) ==> cfg.minimumGap > 0
  {
  }

  lemma NoFresh(input: seq<Observation>, acc: seq<Observation>, now: Time, cfg: Config)
    requires forall o :: o in acc <==> o in input && Admissible(o, now)
    ensures FreshPositives(acc, now, cfg) == [] <==> forall p :: !SeededNow(input, now, cfg, p)
  {
    hide FreshPositives, Admissible, Trustworthy, Fresh, Alive, IsPositive, Seeded;
    NoFreshPositive(acc, now, cfg);
    forall p ensures (Admissible(p, now) <==> Trustworthy(p, now)) && (IsPositive(p) <==> Seeded(p))
             ensures Fresh(p, now, cfg) <==> Alive(p, now, cfg) { PlainTerms(p, now, cfg); }
    if FreshPositives(acc, now, cfg) != [] {
      var o :| o in acc && IsPositive(o) && Fresh(o, now, cfg);
      assert SeededNow(input, now, cfg, o);
    }
  }

  lemma ThinnedHere(input: seq<Observation>, order: seq<Observation>, now: Time, cfg: Config)
    requires DifferentIds(input) && Arranged(order, input, OldestFirst) && cfg.minimumGap > 0
    ensures var kept := Greedy(Eligible(Accept(order, now), now, cfg), cfg.minimumGap);
      ThinnedFrom(input, now, cfg, kept) && (kept == [] <==> forall o :: !Against(input, now, cfg, o))
  {
    hide Accept, Eligible, Greedy, OldestFirst, Against, Evidence, CountsAgainst;
    var acc := Accept(order, now);
    AcceptedExactly(input, order, now);
    ArrangedByTime(order, input);
    AcceptKeeps(order, now);
    EligibleIsEvidence(acc, now, cfg);
    GreedyCovers(Eligible(acc, now, cfg), cfg.minimumGap);
    var kept := Greedy(Eligible(acc, now, cfg), cfg.minimumGap);
    forall o ensures o in Eligible(acc, now, cfg) <==> Against(input, now, cfg, o) {
      EvidenceCounts(input, acc, now, cfg, o);
      AgainstExactly(input, now, cfg, o);
    }
    forall o | Against(input, now, cfg, o)
      ensures exists i :: 0 <= i < |kept| && kept[i].observedAt <= o.observedAt < kept[i].observedAt + cfg.minimumGap
    {
      assert Covered(kept, cfg.minimumGap, o);
    }
    if kept != [] { assert kept[0] in kept; }
  }

  lemma DescribesKept(kept: seq<Observation>, cfg: Config, d: Decision)
    requires kept != [] && d.ids == Ids(kept) && d.expiresAt == ExpiryOf(kept, cfg)
    ensures Describes(kept, cfg, d)
  {
    hide Ids, ExpiryOf, EndOf;
    IdsAre(kept);
    ExpiryIs(kept, cfg);
  }

  lemma AliveUntil(input: seq<Observation>, now: Time, cfg: Config, kept: seq<Observation>, d: Decision)
    requires ThinnedFrom(input, now, cfg, kept) && Describes(kept, cfg, d)
    ensures d.expiresAt > now
  {
    hide Trustworthy, Seeded, Unclear;
    var o :| o in kept && d.expiresAt == EndOf(o, cfg);
    assert Against(input, now, cfg, o);
  }
}
