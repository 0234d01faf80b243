/**
What the availability decision means: the greedy thinning is optimal, a suspicion always
rests on enough separated evidence, and a decision holds until it says it expires.
*/
module AvailabilityLaws {
  import opened Options
  import opened Sorting
  import opened Availability
  import opened FiniteSets

  ghost predicate ByTime(list: seq<Observation>) {
    forall i, j :: 0 <= i < j < |list| ==> list[i].observedAt <= list[j].observedAt
  }

  lemma ArrangedByTime(order: seq<Observation>, input: seq<Observation>)
    requires Arranged(order, input, OldestFirst)
    ensures ByTime(order)
  {
  }

  lemma MemberInAnyOrder(list: seq<Observation>, order: seq<Observation>, o: Observation)
    requires multiset(list) == multiset(order) && o in list
    ensures o in order
  {
    assert o in multiset(order);
  }

  /** Observations under different identifiers have one sorted arrangement, so the decision
      does not depend on the order in which they are given. */
  lemma AnyInputOrder(a: seq<Observation>, b: seq<Observation>, p: seq<Observation>, q: seq<Observation>)
    requires multiset(a) == multiset(b) && Arranged(p, a, OldestFirst) && Arranged(q, b, OldestFirst)
    requires forall x, y :: x in a && y in a && x.id == y.id ==> x == y
    ensures p == q
  {
    forall x, y | x in p && y in p && OldestFirst(x, y) && OldestFirst(y, x) ensures x == y {
      TextLeqAntisymmetric(x.id, y.id);
      assert x in multiset(p) && y in multiset(p);
      assert x in a && y in a;
    }
    assert Strict(p, OldestFirst);
    ArrangedOneWay(p, q, OldestFirst);
  }

  // ------------------------------------------------------ what the filters keep, and order

  lemma InitKeeps(list: seq<Observation>)
    requires ByTime(list) && list != []
    ensures var rest, o := list[..|list| - 1], list[|list| - 1];
      && ByTime(rest) && (forall x :: x in rest ==> x.observedAt <= o.observedAt)
          && (forall x :: x in list <==> x in rest || x == o)
  {
    assert list == list[..|list| - 1] + [list[|list| - 1]];
  }

  lemma AppendKeeps(list: seq<Observation>, o: Observation)
    requires ByTime(list) && forall x :: x in list ==> x.observedAt <= o.observedAt
    ensures ByTime(list + [o]) && (forall x :: x in list + [o] <==> x in list || x == o)
  {
  }

  lemma {:induction false} AcceptKeeps(obs: seq<Observation>, now: Time)
    requires ByTime(obs)
    ensures ByTime(Accept(obs, now))
    ensures forall o :: o in Accept(obs, now) ==> o in obs && Admissible(o, now)
    decreases |obs|
  {
    hide Admissible, Seen;
    if obs != [] {
      var rest, o := obs[..|obs| - 1], obs[|obs| - 1];
      InitKeeps(obs);
      AcceptKeeps(rest, now);
      AppendKeeps(Accept(rest, now), o);
    }
  }

  lemma {:induction false} NegativesKeep(acc: seq<Observation>, now: Time, cfg: Config)
    requires ByTime(acc)
    ensures ByTime(Negatives(acc, now, cfg))
    ensures forall o :: o in Negatives(acc, now, cfg) <==> o in acc && IsNegative(o) && Fresh(o, now, cfg)
    decreases |acc|
  {
    hide IsNegative, Fresh;
    if acc != [] {
      var rest, o := acc[..|acc| - 1], acc[|acc| - 1];
      InitKeeps(acc);
      NegativesKeep(rest, now, cfg);
      AppendKeeps(Negatives(rest, now, cfg), o);
    }
  }

  lemma {:induction false} AfterKeeps(list: seq<Observation>, t: Time)
    requires ByTime(list)
    ensures ByTime(After(list, t))
    ensures forall o :: o in After(list, t) <==> o in list && o.observedAt > t
    decreases |list|
  {
    if list != [] {
      var rest, o := list[..|list| - 1], list[|list| - 1];
      InitKeeps(list);
      AfterKeeps(rest, t);
      AppendKeeps(After(rest, t), o);
    }
  }

  lemma {:induction false} LastPositiveIsMax(acc: seq<Observation>)
    ensures LastPositive(acc) >= 0
    ensures forall o :: o in acc && IsPositive(o) ==> o.observedAt <= LastPositive(acc)
    ensures LastPositive(acc) == 0 || exists o :: o in acc && IsPositive(o) && o.observedAt == LastPositive(acc)
    decreases |acc|
  {
    if acc != [] {
      LastPositiveIsMax(acc[..|acc| - 1]);
      assert acc == acc[..|acc| - 1] + [acc[|acc| - 1]];
    }
  }

  lemma {:induction false} LatestUnknownIsMax(acc: seq<Observation>)
    ensures LatestUnknown(acc) >= 0
    ensures forall o :: o in acc && IsUnknown(o) ==> o.observedAt <= LatestUnknown(acc)
    ensures LatestUnknown(acc) == 0 || exists o :: o in acc && IsUnknown(o) && o.observedAt == LatestUnknown(acc)
    decreases |acc|
  {
    if acc != [] {
      LatestUnknownIsMax(acc[..|acc| - 1]);
      assert acc == acc[..|acc| - 1] + [acc[|acc| - 1]];
    }
  }

  /** A fresh qualified negative that nothing positive or unknown has overtaken. */
  ghost predicate Evidence(acc: seq<Observation>, now: Time, cfg: Config, o: Observation) {
    && o in acc && IsNegative(o) && Fresh(o, now, cfg) && o.observedAt > 0
    && (forall p :: p in acc && (IsPositive(p) || IsUnknown(p)) ==> p.observedAt < o.observedAt)
  }

  /** The eligible observations are exactly the evidence, oldest first. */
  lemma EligibleIsEvidence(acc: seq<Observation>, now: Time, cfg: Config)
    requires ByTime(acc)
    ensures ByTime(Eligible(acc, now, cfg))
    ensures forall o :: o in Eligible(acc, now, cfg) <==> Evidence(acc, now, cfg, o)
  {
    hide Fresh, IsNegative, IsPositive, IsUnknown;
    NegativesKeep(acc, now, cfg);
    AfterKeeps(Negatives(acc, now, cfg), Later(LatestUnknown(acc), LastPositive(acc)));
    LastPositiveIsMax(acc);
    LatestUnknownIsMax(acc);
  }

  // ---------------------------------------------------------------- greedy is optimal

  ghost predicate Spaced(kept: seq<Observation>, gap: int) {
    forall i, j :: 0 <= i < j < |kept| ==> kept[j].observedAt - kept[i].observedAt >= gap
  }

  /** Any two different members are at least the gap apart. */
  ghost predicate Separated(s: set<Observation>, gap: int) {
    forall x, y :: x in s && y in s && x != y ==>
        x.observedAt - y.observedAt >= gap || y.observedAt - x.observedAt >= gap
  }

  /** Some kept observation is at or before it, by less than the gap. */
  ghost predicate Covered(g: seq<Observation>, gap: int, o: Observation) {
    exists i :: 0 <= i < |g| && g[i].observedAt <= o.observedAt < g[i].observedAt + gap
  }

  lemma CoveredByMore(g: seq<Observation>, gap: int, x: Observation, o: Observation)
    ensures Covered(g, gap, x) ==> Covered(g + [o], gap, x)
    ensures gap > 0 ==> Covered(g + [o], gap, o)
  {
    assert (g + [o])[|g|] == o;
    if Covered(g, gap, x) {
      var i :| 0 <= i < |g| && g[i].observedAt <= x.observedAt < g[i].observedAt + gap;
      assert (g + [o])[i] == g[i];
    }
  }

  /** What greedy keeps is spaced, taken from the list, and leaves nothing uncovered. */
  lemma {:induction false} GreedyCovers(list: seq<Observation>, gap: int)
    requires ByTime(list) && gap > 0
    ensures Spaced(Greedy(list, gap), gap)
    ensures forall o :: o in Greedy(list, gap) ==> o in list
    ensures forall o :: o in list ==> Covered(Greedy(list, gap), gap, o)
    decreases |list|
  {
    hide Covered, Spaced, ByTime, Greedy;
    if list == [] {
      NothingKept(gap);
    } else {
      var rest, o := list[..|list| - 1], list[|list| - 1];
      assert list == rest + [o];
      InitKeeps(list);
      GreedyCovers(rest, gap);
      GreedyAppend(rest, gap, o);
      var g := Greedy(rest, gap);
      if g != [] && o.observedAt - g[|g| - 1].observedAt < gap {
        CoveredByLast(g, gap, o);
      } else {
        SpacedAppend(g, gap, o);
        forall x ensures Covered(g, gap, x) ==> Covered(g + [o], gap, x) { CoveredByMore(g, gap, x, o); }
        CoveredByMore(g, gap, o, o);
      }
    }
  }

  lemma NothingKept(gap: int)
    ensures Greedy([], gap) == [] && Spaced([], gap)
  {
  }

  lemma CoveredByLast(g: seq<Observation>, gap: int, o: Observation)
    requires g != [] && g[|g| - 1] .observedAt <= o.observedAt < g[|g| - 1].observedAt + gap
    ensures Covered(g, gap, o)
  {
  }

  lemma SpacedAppend(g: seq<Observation>, gap: int, o: Observation)
    requires gap > 0 && Spaced(g, gap) && (g == [] || o.observedAt - g[|g| - 1].observedAt >= gap)
    ensures Spaced(g + [o], gap)
  {
    forall i | 0 <= i < |g| ensures o.observedAt - g[i].observedAt >= gap {
      if i < |g| - 1 { assert g[|g| - 1].observedAt - g[i].observedAt >= gap; }
    }
  }

  /** The kept observation that covers another. */
  ghost function Cover(g: seq<Observation>, gap: int, o: Observation): int {
    if i :| 0 <= i < |g| && g[i].observedAt <= o.observedAt < g[i].observedAt + gap then i else -1
  }

  ghost function Indices(n: nat): (s: set<int>)
    ensures forall i :: i in s <==> 0 <= i < n
  {
    if n == 0 then {} else Indices(n - 1) + {n - 1}
  }

  lemma {:induction false} IndexCount(n: nat)
    ensures |Indices(n)| == n
  {
    if n > 0 {
      IndexCount(n - 1);
    }
  }

  /** No set of evidence whose members are pairwise at least the gap apart is larger than
      what the greedy thinning keeps. */
  lemma GreedyIsOptimal(acc: seq<Observation>, now: Time, cfg: Config, s: set<Observation>)
    requires ByTime(acc) && cfg.minimumGap > 0
    requires Separated(s, cfg.minimumGap) && forall o :: o in s ==> Evidence(acc, now, cfg, o)
    ensures |s| <= |Greedy(Eligible(acc, now, cfg), cfg.minimumGap)|
  {
    hide Evidence, Eligible, Greedy;
    var list, gap := Eligible(acc, now, cfg), cfg.minimumGap;
    EligibleIsEvidence(acc, now, cfg);
    GreedyCovers(list, gap);
    var g := Greedy(list, gap);
    var cover := (o: Observation) => Cover(g, gap, o);
    forall o | o in s ensures 0 <= cover(o) < |g|
        && g[cover(o)].observedAt <= o.observedAt < g[cover(o)].observedAt + gap {
      assert Covered(g, gap, o);
      assert 0 <= Cover(g, gap, o) < |g|
          && g[Cover(g, gap, o)].observedAt <= o.observedAt < g[Cover(g, gap, o)].observedAt + gap;
    }
    IndexCount(|g|);
    CardInjection(s, Indices(|g|), cover);
  }

  lemma MembersDistinct(kept: seq<Observation>, gap: int)
    requires Spaced(kept, gap) && gap > 0
    ensures |Members(kept)| == |kept|
  {
    CardMembers(kept);
  }

  /** At least the required number of pairwise separated pieces of evidence, spanning the
      required time. */
  ghost predicate EnoughEvidence(acc: seq<Observation>, now: Time, cfg: Config, s: set<Observation>) {
    && |s| >= cfg.minimumObservations && Separated(s, cfg.minimumGap)
    && (forall o :: o in s ==> Evidence(acc, now, cfg, o))
    && exists a, b :: a in s && b in s && b.observedAt - a.observedAt >= cfg.minimumSpan
  }

  lemma KeptIsEnough(acc: seq<Observation>, now: Time, cfg: Config)
    requires ByTime(acc) && cfg.minimumGap > 0
    requires Repeated(Greedy(Eligible(acc, now, cfg), cfg.minimumGap), cfg)
    ensures EnoughEvidence(acc, now, cfg, Members(Greedy(Eligible(acc, now, cfg), cfg.minimumGap)))
  {
    hide Eligible, Greedy, Evidence, Covered;
    var list, gap := Eligible(acc, now, cfg), cfg.minimumGap;
    EligibleIsEvidence(acc, now, cfg);
    GreedyCovers(list, gap);
    var kept := Greedy(list, gap);
    MembersDistinct(kept, gap);
    MembersSeparated(kept, gap);
    var s := Members(kept);
    var a, b := kept[0], kept[|kept| - 1];
    assert a in s && b in s;
  }

  lemma MembersSeparated(kept: seq<Observation>, gap: int)
    requires Spaced(kept, gap)
    ensures Separated(Members(kept), gap)
  {
  }

  /** A suspicion always rests on enough evidence, with no positive fresh or inside the
      protected window. */
  lemma SuspicionNeedsEvidence(obs: seq<Observation>, now: Time, cfg: Config)
    requires ByTime(obs) && Evaluate(obs, now, cfg).verdict == SuspectedUnavailable
    ensures var acc := Accept(obs, now);
      && (exists s :: EnoughEvidence(acc, now, cfg, s))
      && (forall p :: p in acc && IsPositive(p) ==>
          !Fresh(p, now, cfg) && (p.observedAt > 0 ==> now - p.observedAt >= cfg.recentPositiveFor))
  {
    hide Accept, Eligible, Greedy, EnoughEvidence, Ids, ExpiryOf, Fresh, IsPositive, FreshPositives, LastPositive,
        Repeated;
    var acc := Accept(obs, now);
    AcceptKeeps(obs, now);
    KeptIsEnough(acc, now, cfg);
    LastPositiveIsMax(acc);
    NoFreshPositive(acc, now, cfg);
  }

  lemma {:induction false} NoFreshPositive(acc: seq<Observation>, now: Time, cfg: Config)
    ensures FreshPositives(acc, now, cfg) == [] <==> forall o :: o in acc ==> !(IsPositive(o) && Fresh(o, now, cfg))
    decreases |acc|
  {
    if acc != [] {
      NoFreshPositive(acc[..|acc| - 1], now, cfg);
      assert acc == acc[..|acc| - 1] + [acc[|acc| - 1]];
    }
  }

  /** With nothing positive standing in the way, enough separated evidence is always enough
      for the count: only the span can still hold a suspicion back. */
  lemma EnoughEvidenceSuffices(obs: seq<Observation>, now: Time, cfg: Config, s: set<Observation>)
    requires ByTime(obs) && ValidThresholds(cfg)
    requires var acc := Accept(obs, now);
      && Separated(s, cfg.minimumGap) && |s| >= cfg.minimumObservations
          && (forall o :: o in s ==> Evidence(acc, now, cfg, o))
      && (forall p :: p in acc && IsPositive(p) ==> !Fresh(p, now, cfg)) && !Protects(LastPositive(acc), now, cfg)
    ensures var kept := Greedy(Eligible(Accept(obs, now), now, cfg), cfg.minimumGap);
      && kept != []
      && (Evaluate(obs, now, cfg).verdict == SuspectedUnavailable <==>
          kept[|kept| - 1].observedAt - kept[0].observedAt >= cfg.minimumSpan)
  {
    hide Accept, Eligible, Greedy, Evidence, Ids, ExpiryOf;
    var acc := Accept(obs, now);
    AcceptKeeps(obs, now);
    GreedyIsOptimal(acc, now, cfg, s);
    NoFreshPositive(acc, now, cfg);
  }

  // ------------------------------------------------------------------------ the span

  /** The span of what greedy keeps falls short of the widest evidence by less than a gap. */
  lemma GreedySpanNearlyWidest(acc: seq<Observation>, now: Time, cfg: Config, a: Observation, b: Observation)
    requires ByTime(acc) && cfg.minimumGap > 0 && Evidence(acc, now, cfg, a) && Evidence(acc, now, cfg, b)
    ensures var kept := Greedy(Eligible(acc, now, cfg), cfg.minimumGap);
      kept != [] && kept[|kept| - 1].observedAt - kept[0].observedAt > b.observedAt - a.observedAt - cfg.minimumGap
  {
    hide Evidence, Eligible, Greedy;
    var list, gap := Eligible(acc, now, cfg), cfg.minimumGap;
    EligibleIsEvidence(acc, now, cfg);
    GreedyCovers(list, gap);
    var g := Greedy(list, gap);
    assert Covered(g, gap, a) && Covered(g, gap, b);
    var i :| 0 <= i < |g| && g[i].observedAt <= a.observedAt < g[i].observedAt + gap;
    var j :| 0 <= j < |g| && g[j].observedAt <= b.observedAt < g[j].observedAt + gap;
    assert g[0].observedAt <= g[i].observedAt && g[j].observedAt <= g[|g| - 1].observedAt;
  }

  /** With enough separated evidence, no positive in the way, and two pieces of evidence that
      span the required time and a gap less one, the torrent is suspected. */
  lemma WideEvidenceSuffices(obs: seq<Observation>, now: Time, cfg: Config, s: set<Observation>, a: Observation,
      b: Observation)
    requires ByTime(obs) && ValidThresholds(cfg)
    requires var acc := Accept(obs, now);
      && Separated(s, cfg.minimumGap) && |s| >= cfg.minimumObservations
          && (forall o :: o in s ==> Evidence(acc, now, cfg, o))
      && (forall p :: p in acc && IsPositive(p) ==> !Fresh(p, now, cfg)) && !Protects(LastPositive(acc), now, cfg)
      && Evidence(acc, now, cfg, a) && Evidence(acc, now, cfg, b)
      && b.observedAt - a.observedAt >= cfg.minimumSpan + cfg.minimumGap - 1
    ensures Evaluate(obs, now, cfg).verdict == SuspectedUnavailable
  {
    hide Accept, Eligible, Greedy, Evidence, Evaluate, LastPositive, Protects;
    AcceptKeeps(obs, now);
    EnoughEvidenceSuffices(obs, now, cfg, s);
    GreedySpanNearlyWidest(Accept(obs, now), now, cfg, a, b);
  }

  /** One less is not enough: here two separated observations span the required time and a gap
      less two, greedy keeps two of a shorter span, and the torrent is not suspected. */
  lemma GreedySpanCanFallShort() returns (obs: seq<Observation>, now: Time, cfg: Config, a: Observation, b: Observation)
    ensures ByTime(obs) && ValidThresholds(cfg) && EnoughEvidence(Accept(obs, now), now, cfg, {a, b})
    ensures (forall p :: p in Accept(obs, now) ==> !IsPositive(p))
      && !Protects(LastPositive(Accept(obs, now)), now, cfg)
    ensures b.observedAt - a.observedAt == cfg.minimumSpan + cfg.minimumGap - 2
    ensures Evaluate(obs, now, cfg).verdict == FreshKnownZero
  {
    hide Accept, Evaluate, LastPositive;
    now, cfg := 30, Config(100, 100, 20, 10, 2);
    a := Observation("a", "s", Zero, 1, 1000, true, false);
    var m := Observation("m", "s", Zero, 20, 1000, true, false);
    b := Observation("b", "s", Zero, 29, 1000, true, false);
    obs := [a, m, b];
    AcceptThree(a, m, b, now);
    EvaluateThree(a, m, b, now, cfg);
    ReadThree(a, m, b, now, cfg);
    TwoAreEnough(obs, now, cfg, a, b);
  }

  lemma TwoAreEnough(acc: seq<Observation>, now: Time, cfg: Config, a: Observation, b: Observation)
    requires cfg.minimumObservations == 2 && b.observedAt - a.observedAt >= cfg.minimumGap > 0
    requires b.observedAt - a.observedAt >= cfg.minimumSpan && Evidence(acc, now, cfg, a) && Evidence(acc, now, cfg, b)
    ensures EnoughEvidence(acc, now, cfg, {a, b})
  {
    hide Evidence;
    var s := {a, b};
    assert a in s && b in s && |s| == 2;
  }

  lemma AcceptThree(a: Observation, m: Observation, b: Observation, now: Time)
    requires Admissible(a, now) && Admissible(m, now) && Admissible(b, now)
    requires a.id != m.id && a.id != b.id && m.id != b.id
    ensures Accept([a, m, b], now) == [a, m, b]
  {
    hide Admissible;
    assert [a, m, b][..2] == [a, m] && [a, m][..1] == [a] && [a][..0] == [];
    assert Accept([a], now) == [a];
    assert Accept([a, m], now) == [a, m];
  }

  lemma AfterAppend(list: seq<Observation>, o: Observation)
    requires o.observedAt > 0
    ensures After(list + [o], 0) == After(list, 0) + [o]
  {
    assert (list + [o])[..|list|] == list;
  }

  lemma NothingAfter()
    ensures After([], 0) == []
  {
  }

  lemma ThinThree(a: Observation, m: Observation, b: Observation, gap: int)
    requires a.observedAt > 0 && m.observedAt > 0 && b.observedAt > 0
    requires m.observedAt - a.observedAt >= gap > b.observedAt - m.observedAt
    ensures Greedy(After([a, m, b], 0), gap) == [a, m]
  {
    hide Greedy, After;
    NothingAfter();
    NothingKept(gap);
    AfterAppend([], a);
    GreedyAppend([], gap, a);
    AfterAppend([a], m);
    GreedyAppend([a], gap, m);
    AfterAppend([a, m], b);
    GreedyAppend([a, m], gap, b);
    assert [] + [a] == [a] && [a] + [m] == [a, m] && [a, m] + [b] == [a, m, b];
  }

  lemma ReadThree(a: Observation, m: Observation, b: Observation, now: Time, cfg: Config)
    requires IsNegative(a) && Fresh(a, now, cfg) && IsNegative(m) && Fresh(m, now, cfg) && IsNegative(b)
      && Fresh(b, now, cfg)
    ensures var all := [a, m, b];
      PositiveDecision(all, now, cfg) == None && Negatives(all, now, cfg) == all && LastPositive(all) == 0
          && LatestUnknown(all) == 0
  {
    hide PositiveDecision, Negatives, LastPositive, LatestUnknown, Fresh;
    NothingRead(now, cfg);
    ReadOneMore([], a, now, cfg);
    ReadOneMore([a], m, now, cfg);
    ReadOneMore([a, m], b, now, cfg);
    assert [] + [a] == [a] && [a] + [m] == [a, m] && [a, m] + [b] == [a, m, b];
  }

  lemma EvaluateThree(a: Observation, m: Observation, b: Observation, now: Time, cfg: Config)
    requires ValidThresholds(cfg) && Accept([a, m, b], now) == [a, m, b]
    requires IsNegative(a) && Fresh(a, now, cfg) && IsNegative(m) && Fresh(m, now, cfg) && IsNegative(b)
      && Fresh(b, now, cfg)
    requires a.observedAt > 0 && m.observedAt > 0 && b.observedAt > 0
    requires m.observedAt - a.observedAt >= cfg.minimumGap > b.observedAt - m.observedAt
      && m.observedAt - a.observedAt < cfg.minimumSpan && m.kind == Zero
    ensures Evaluate([a, m, b], now, cfg).verdict == FreshKnownZero
  {
    hide Accept, ExpiryOf, Ids, Fresh, Greedy, After, Negatives, LastPositive, LatestUnknown, FreshPositives;
    ReadThree(a, m, b, now, cfg);
    ThinThree(a, m, b, cfg.minimumGap);
  }

  // ---------------------------------------------------------------------- stability

  function StillFresh(list: seq<Observation>, later: Time, cfg: Config): seq<Observation> {
    if list == [] then [] else
    var rest, o := StillFresh(list[..|list| - 1], later, cfg), list[|list| - 1];
    if Fresh(o, later, cfg) then rest + [o] else rest
  }

  lemma {:induction false} AcceptAtAnyTime(obs: seq<Observation>, now: Time, later: Time)
    requires now <= later && forall o :: o in obs ==> o.observedAt <= now
    ensures Accept(obs, later) == Accept(obs, now)
    decreases |obs|
  {
    hide Seen;
    if obs != [] {
      assert obs[|obs| - 1] in obs;
      AcceptAtAnyTime(obs[..|obs| - 1], now, later);
    }
  }

  lemma {:induction false} NegativesAge(acc: seq<Observation>, now: Time, later: Time, cfg: Config)
    requires now <= later
    ensures Negatives(acc, later, cfg) == StillFresh(Negatives(acc, now, cfg), later, cfg)
    decreases |acc|
  {
    if acc != [] {
      var rest, o := acc[..|acc| - 1], acc[|acc| - 1];
      NegativesAge(rest, now, later, cfg);
      var n := Negatives(rest, now, cfg);
      assert (n + [o])[..|n|] == n;
    }
  }

  lemma {:induction false} AfterAges(list: seq<Observation>, t: Time, later: Time, cfg: Config)
    ensures After(StillFresh(list, later, cfg), t) == StillFresh(After(list, t), later, cfg)
    decreases |list|
  {
    if list != [] {
      var rest, o := list[..|list| - 1], list[|list| - 1];
      AfterAges(rest, t, later, cfg);
      var f, a := StillFresh(rest, later, cfg), After(rest, t);
      assert (f + [o])[..|f|] == f && (a + [o])[..|a|] == a;
    }
  }

  lemma GreedyAppend(list: seq<Observation>, gap: int, o: Observation)
    ensures var kept := Greedy(list, gap);
      Greedy(list + [o], gap) ==
          if kept == [] || o.observedAt - kept[|kept| - 1].observedAt >= gap then kept + [o] else kept
  {
    assert (list + [o])[..|list|] == list;
  }

  /** Dropping observations that greedy passed over never changes what it keeps. */
  lemma {:induction false} GreedyIgnoresUnselected(list: seq<Observation>, gap: int, later: Time, cfg: Config)
    requires forall o :: o in Greedy(list, gap) ==> Fresh(o, later, cfg)
    ensures Greedy(StillFresh(list, later, cfg), gap) == Greedy(list, gap)
    decreases |list|
  {
    hide Fresh, Greedy;
    if list != [] {
      var rest, o := list[..|list| - 1], list[|list| - 1];
      assert list == rest + [o];
      GreedyAppend(rest, gap, o);
      var kept := Greedy(rest, gap);
      forall x | x in kept ensures Fresh(x, later, cfg) { assert x in Greedy(list, gap); }
      GreedyIgnoresUnselected(rest, gap, later, cfg);
      GreedyAppend(StillFresh(rest, later, cfg), gap, o);
      if Greedy(list, gap) != kept { assert o in Greedy(list, gap); }
    } else {
      assert StillFresh(list, later, cfg) == list;
    }
  }

  lemma {:induction false} ExpiryBounds(list: seq<Observation>, later: Time, cfg: Config)
    requires list != [] && later < ExpiryOf(list, cfg)
    ensures forall o :: o in list ==> Fresh(o, later, cfg)
    decreases |list|
  {
    var rest, o := list[..|list| - 1], list[|list| - 1];
    assert list == rest + [o];
    if rest != [] { ExpiryBounds(rest, later, cfg); }
  }

  lemma {:induction false} PositivesAge(acc: seq<Observation>, now: Time, later: Time, cfg: Config)
    requires now <= later
    ensures FreshPositives(acc, later, cfg) == StillFresh(FreshPositives(acc, now, cfg), later, cfg)
    decreases |acc|
  {
    if acc != [] {
      var rest, o := acc[..|acc| - 1], acc[|acc| - 1];
      PositivesAge(rest, now, later, cfg);
      var p := FreshPositives(rest, now, cfg);
      assert (p + [o])[..|p|] == p;
    }
  }

  /** What greedy keeps stays the same until the decision expires. */
  lemma KeptUntilExpiry(acc: seq<Observation>, now: Time, later: Time, cfg: Config)
    requires now <= later
    requires var kept := Greedy(Eligible(acc, now, cfg), cfg.minimumGap); kept != [] && later < ExpiryOf(kept, cfg)
    ensures Greedy(Eligible(acc, later, cfg), cfg.minimumGap) == Greedy(Eligible(acc, now, cfg), cfg.minimumGap)
  {
    hide Greedy, After, Negatives, StillFresh, ExpiryOf, Fresh;
    var t := Availability.Later(LatestUnknown(acc), LastPositive(acc));
    NegativesAge(acc, now, later, cfg);
    AfterAges(Negatives(acc, now, cfg), t, later, cfg);
    ExpiryBounds(Greedy(Eligible(acc, now, cfg), cfg.minimumGap), later, cfg);
    GreedyIgnoresUnselected(Eligible(acc, now, cfg), cfg.minimumGap, later, cfg);
  }

  /** Until it expires a decision does not change when it is taken again on the same
      observations, except that protection by a recent positive can run out first: then, and
      only then, the decision changes. */
  lemma StableUntilExpiry(obs: seq<Observation>, now: Time, later: Time, cfg: Config)
    requires forall o :: o in obs ==> o.observedAt <= now
    requires now <= later < Evaluate(obs, now, cfg).expiresAt
    ensures var d, again := Evaluate(obs, now, cfg), Evaluate(obs, later, cfg);
      && (d.reason != RecentPositiveProtects ==> again == d)
      && (d.reason == RecentPositiveProtects ==>
          (again == d <==> later - LastPositive(Accept(obs, now)) < cfg.recentPositiveFor))
  {
    hide Accept, Eligible, Greedy, LastPositive, FreshPositives, StillFresh, ExpiryOf, Ids, Repeated;
    AcceptAtAnyTime(obs, now, later);
    var acc := Accept(obs, now);
    PositivesAge(acc, now, later, cfg);
    var positives := FreshPositives(acc, now, cfg);
    if positives != [] {
      LastStaysFresh(positives, later, cfg);
    } else {
      NothingStaysFresh(later, cfg);
      KeptUntilExpiry(acc, now, later, cfg);
    }
  }

  lemma LastStaysFresh(list: seq<Observation>, later: Time, cfg: Config)
    requires list != [] && Fresh(list[|list| - 1], later, cfg)
    ensures var f := StillFresh(list, later, cfg); f != [] && f[|f| - 1] == list[|list| - 1]
  {
  }

  lemma NothingStaysFresh(later: Time, cfg: Config)
    ensures StillFresh([], later, cfg) == []
  {
  }

  // ------------------------------------------- what is returned, in terms of what was given

  lemma {:induction false} AcceptHas(order: seq<Observation>, now: Time, p: Observation)
    requires p in order && Admissible(p, now) && forall q :: q in order && q.id == p.id ==> q == p
    ensures p in Accept(order, now)
    decreases |order|
  {
    hide Admissible;
    var rest, o := order[..|order| - 1], order[|order| - 1];
    assert order == rest + [o];
    if p in rest {
      AcceptHas(rest, now, p);
    } else {
      AcceptedFrom(rest, now);
      assert !Seen(Accept(rest, now), p.id);
    }
  }

  lemma {:induction false} AcceptedFrom(order: seq<Observation>, now: Time)
    ensures forall o :: o in Accept(order, now) ==> o in order
    decreases |order|
  {
    if order != [] {
      AcceptedFrom(order[..|order| - 1], now);
      assert order == order[..|order| - 1] + [order[|order| - 1]];
    }
  }

  ghost predicate DifferentIds(input: seq<Observation>) {
    forall x, y :: x in input && y in input && x.id == y.id ==> x == y
  }

  /** Under different identifiers exactly the admissible observations are accepted. */
  lemma AcceptedExactly(input: seq<Observation>, order: seq<Observation>, now: Time)
    requires DifferentIds(input) && Arranged(order, input, OldestFirst)
    ensures forall o :: o in Accept(order, now) <==> o in input && Admissible(o, now)
  {
    hide Accept, Admissible;
    forall o | o in order ensures o in input { MemberInAnyOrder(order, input, o); }
    forall o | o in input ensures o in order { MemberInAnyOrder(input, order, o); }
    ArrangedByTime(order, input);
    AcceptKeeps(order, now);
    forall o | o in input && Admissible(o, now) ensures o in Accept(order, now) { AcceptHas(order, now, o); }
  }

  /** An observation among those given that counts against the torrent: admissible, a fresh
      qualified negative, later than every admissible positive and unknown. */
  ghost predicate CountsAgainst(input: seq<Observation>, now: Time, cfg: Config, o: Observation) {
    && o in input && Admissible(o, now) && IsNegative(o) && Fresh(o, now, cfg) && o.observedAt > 0
    && (forall p :: p in input && Admissible(p, now) && (IsPositive(p) || IsUnknown(p)) ==> p.observedAt < o.observedAt)
  }

  /** Enough separated observations count against the torrent, over the required span. */
  ghost predicate Justifies(input: seq<Observation>, now: Time, cfg: Config, s: set<Observation>) {
    && |s| >= cfg.minimumObservations && Separated(s, cfg.minimumGap)
    && (forall o :: o in s ==> CountsAgainst(input, now, cfg, o))
    && exists a, b :: a in s && b in s && b.observedAt - a.observedAt >= cfg.minimumSpan
  }

  lemma EvidenceCounts(input: seq<Observation>, acc: seq<Observation>, now: Time, cfg: Config, o: Observation)
    requires forall x :: x in acc <==> x in input && Admissible(x, now)
    ensures Evidence(acc, now, cfg, o) <==> CountsAgainst(input, now, cfg, o)
  {
    hide Admissible, IsNegative, IsPositive, IsUnknown, Fresh;
  }

  /** Whatever EvaluateAvailability returns on observations under different identifiers: a
      suspicion is justified by the observations given, and no admissible positive among them
      is fresh or inside the protected window. */
  lemma ReturnedSuspicionJustified(input: seq<Observation>, now: Time, cfg: Config, d: Decision)
    requires Decides(input, now, cfg, d) && DifferentIds(input) && d.verdict == SuspectedUnavailable
    ensures exists s :: Justifies(input, now, cfg, s)
    ensures forall p :: p in input && Admissible(p, now) && IsPositive(p) ==>
      !Fresh(p, now, cfg) && (p.observedAt > 0 ==> now - p.observedAt >= cfg.recentPositiveFor)
  {
    hide Evaluate, Accept, Admissible, Fresh, IsPositive, Evidence, CountsAgainst, OldestFirst;
    var order: seq<Observation> :| Arranged(order, input, OldestFirst) && d == Evaluate(order, now, cfg);
    ArrangedByTime(order, input);
    SuspicionNeedsEvidence(order, now, cfg);
    AcceptedExactly(input, order, now);
    var acc := Accept(order, now);
    var s :| EnoughEvidence(acc, now, cfg, s);
    forall o | o in s ensures CountsAgainst(input, now, cfg, o) { EvidenceCounts(input, acc, now, cfg, o); }
    assert Justifies(input, now, cfg, s);
  }

  /** The protection of a positive among the observations given is still running. */
  ghost predicate StillProtected(input: seq<Observation>, now: Time, later: Time, cfg: Config) {
    exists p :: p in input && Admissible(p, now) && IsPositive(p) && p.observedAt > 0
        && later - p.observedAt < cfg.recentPositiveFor
  }

  /** Two evaluations of the same observations under different identifiers, none later than
      the first, the second before the first expires: the same decision, unless a protecting
      positive has run out in between, and then another. */
  lemma ReturnedDecisionStable(input: seq<Observation>, now: Time, later: Time, cfg: Config, d: Decision,
      again: Decision)
    requires DifferentIds(input) && forall o :: o in input ==> o.observedAt <= now
    requires Decides(input, now, cfg, d) && Decides(input, later, cfg, again) && now <= later < d.expiresAt
    ensures d.reason != RecentPositiveProtects ==> again == d
    ensures d.reason == RecentPositiveProtects ==> (again == d <==> StillProtected(input, now, later, cfg))
  {
    hide Evaluate, Accept, Admissible, IsPositive, LastPositive, OldestFirst;
    var p: seq<Observation> :| Arranged(p, input, OldestFirst) && d == Evaluate(p, now, cfg);
    var q: seq<Observation> :| Arranged(q, input, OldestFirst) && again == Evaluate(q, later, cfg);
    AnyInputOrder(input, input, p, q);
    forall o | o in p ensures o.observedAt <= now { MemberInAnyOrder(p, input, o); }
    StableUntilExpiry(p, now, later, cfg);
    AcceptedExactly(input, p, now);
    if d.reason == RecentPositiveProtects {
      ProtectedBySomething(p, now, cfg);
      LastPositiveIsMax(Accept(p, now));
    }
  }

  lemma ProtectedBySomething(order: seq<Observation>, now: Time, cfg: Config)
    requires Evaluate(order, now, cfg).reason == RecentPositiveProtects
    ensures LastPositive(Accept(order, now)) != 0
  {
    hide Accept, LastPositive, Eligible, Greedy, FreshPositives, Ids, ExpiryOf;
  }
}
