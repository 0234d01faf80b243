/**
EvaluateAvailability: what a list of swarm observations says about a torrent, decided
from source timestamps alone.
*/
module Availability {
  import opened Options
  import opened Sorting

  /** Nanoseconds since Go's zero time, which stands for "never". */
  type Time = int

  datatype Class = Positive | Zero | Stall | UnknownClass | OtherClass

  datatype Observation = Observation(
    id: string, source: string, kind: Class, observedAt: Time, expiresAt: Time, qualified: bool, isPrivate: bool)

  datatype Config = Config(freshFor: int, recentPositiveFor: int, minimumSpan: int, minimumGap: int,
      minimumObservations: int)

  datatype Verdict = UnknownStale | FreshPositive | FreshKnownZero | SuspectedUnavailable
  datatype Reason =
    | NoFreshQualified | InvalidThresholds | FreshPublicPositive | SingleQualifiedZero
    | ClientStall | RecentPositiveProtects | RepeatedNegative

  datatype Decision = Decision(verdict: Verdict, reason: Reason, expiresAt: Time, ids: seq<string>)

  predicate OldestFirst(a: Observation, b: Observation) {
    a.observedAt < b.observedAt || (a.observedAt == b.observedAt && TextLeq(a.id, b.id))
  }

  lemma OldestFirstIsOrder()
    ensures TotalPreorder(OldestFirst)
  {
    forall a: Observation, b: Observation ensures OldestFirst(a, b) || OldestFirst(b, a) {
      TextLeqTotal(a.id, b.id);
    }
    forall a: Observation, b: Observation, c: Observation | OldestFirst(a, b) && OldestFirst(b, c)
        ensures OldestFirst(a, c) {
      if a.observedAt == b.observedAt == c.observedAt { TextLeqTransitive(a.id, b.id, c.id); }
    }
  }

  predicate ValidThresholds(cfg: Config) {
    cfg.freshFor > 0 && cfg.recentPositiveFor > 0 && cfg.minimumSpan > 0 && cfg.minimumGap > 0
        && cfg.minimumObservations >= 2
  }

  function Earlier(a: Time, b: Time): Time {
    if a < b then a else b
  }

  function Later(a: Time, b: Time): Time {
    if a > b then a else b
  }

  // ------------------------------------------------------------- reading the observations

  predicate Admissible(o: Observation, now: Time) {
    !o.isPrivate && |o.id| > 0 && |o.source| > 0 && o.observedAt != 0 && o.observedAt <= now
        && o.expiresAt > o.observedAt
  }

  predicate Seen(acc: seq<Observation>, id: string) {
    exists i :: 0 <= i < |acc| && acc[i].id == id
  }

  /** The admissible observations, the first of every identifier. */
  function Accept(obs: seq<Observation>, now: Time): seq<Observation> {
    if obs == [] then [] else
    var acc, o := Accept(obs[..|obs| - 1], now), obs[|obs| - 1];
    if Admissible(o, now) && !Seen(acc, o.id) then acc + [o] else acc
  }

  predicate IsUnknown(o: Observation) {
    !o.qualified || o.kind == UnknownClass
  }

  predicate IsPositive(o: Observation) {
    o.qualified && o.kind == Positive
  }

  predicate IsNegative(o: Observation) {
    o.qualified && (o.kind == Zero || o.kind == Stall)
  }

  function LastPositive(acc: seq<Observation>): Time {
    if acc == [] then 0 else
    var rest, o := LastPositive(acc[..|acc| - 1]), acc[|acc| - 1];
    if IsPositive(o) then Later(rest, o.observedAt) else rest
  }

  function LatestUnknown(acc: seq<Observation>): Time {
    if acc == [] then 0 else
    var rest, o := LatestUnknown(acc[..|acc| - 1]), acc[|acc| - 1];
    if IsUnknown(o) then Later(rest, o.observedAt) else rest
  }

  predicate Fresh(o: Observation, now: Time, cfg: Config) {
    now < o.expiresAt && now - o.observedAt < cfg.freshFor
  }

  function FreshUntil(o: Observation, cfg: Config): Time {
    Earlier(o.expiresAt, o.observedAt + cfg.freshFor)
  }

  /** The newest positive that is still fresh. */
  function FreshPositives(acc: seq<Observation>, now: Time, cfg: Config): seq<Observation> {
    if acc == [] then [] else
    var rest, o := FreshPositives(acc[..|acc| - 1], now, cfg), acc[|acc| - 1];
    if IsPositive(o) && Fresh(o, now, cfg) then rest + [o] else rest
  }

  function Negatives(acc: seq<Observation>, now: Time, cfg: Config): seq<Observation> {
    if acc == [] then [] else
    var rest, o := Negatives(acc[..|acc| - 1], now, cfg), acc[|acc| - 1];
    if IsNegative(o) && Fresh(o, now, cfg) then rest + [o] else rest
  }

  /** Negatives later than a moment. */
  function After(list: seq<Observation>, t: Time): seq<Observation> {
    if list == [] then [] else
    var rest, o := After(list[..|list| - 1], t), list[|list| - 1];
    if o.observedAt > t then rest + [o] else rest
  }

  /** Fresh qualified negatives later than the last positive and the last unknown. */
  function Eligible(acc: seq<Observation>, now: Time, cfg: Config): seq<Observation> {
    After(Negatives(acc, now, cfg), Later(LatestUnknown(acc), LastPositive(acc)))
  }

  /** Keep an observation when it is at least the gap after the last one kept. */
  function Greedy(list: seq<Observation>, gap: int): seq<Observation> {
    if list == [] then [] else
    var kept, o := Greedy(list[..|list| - 1], gap), list[|list| - 1];
    if kept == [] || o.observedAt - kept[|kept| - 1].observedAt >= gap then kept + [o] else kept
  }

  function Ids(list: seq<Observation>): seq<string> {
    if list == [] then [] else Ids(list[..|list| - 1]) + [list[|list| - 1].id]
  }

  /** The earliest end of freshness among the kept observations. */
  function ExpiryOf(list: seq<Observation>, cfg: Config): Time
    requires list != []
  {
    var o := list[|list| - 1];
    if |list| == 1 then FreshUntil(o, cfg) else Earlier(ExpiryOf(list[..|list| - 1], cfg), FreshUntil(o, cfg))
  }

  predicate Protects(lastPositive: Time, now: Time, cfg: Config) {
    lastPositive != 0 && now - lastPositive < cfg.recentPositiveFor
  }

  predicate Repeated(kept: seq<Observation>, cfg: Config) {
    kept != [] && |kept| >= cfg.minimumObservations
        && kept[|kept| - 1].observedAt - kept[0].observedAt >= cfg.minimumSpan
  }

  function NegativeDecision(kept: seq<Observation>, protects: bool, cfg: Config): Decision
    requires kept != []
  {
    var stall := kept[|kept| - 1].kind == Stall;
    var verdict := if stall then UnknownStale else FreshKnownZero;
    var reason := if stall then ClientStall else SingleQualifiedZero;
    if protects then Decision(verdict, RecentPositiveProtects, ExpiryOf(kept, cfg), Ids(kept))
    else if Repeated(kept, cfg) then Decision(SuspectedUnavailable, RepeatedNegative, ExpiryOf(kept, cfg), Ids(kept))
    else Decision(verdict, reason, ExpiryOf(kept, cfg), Ids(kept))
  }

  /** The decision on accepted observations. */
  function Judge(acc: seq<Observation>, now: Time, cfg: Config): Decision {
    var positives := FreshPositives(acc, now, cfg);
    if positives != [] then
      var o := positives[|positives| - 1];
      Decision(FreshPositive, FreshPublicPositive, FreshUntil(o, cfg), [o.id])
    else
      var kept := Greedy(Eligible(acc, now, cfg), cfg.minimumGap);
      if kept == [] then Decision(UnknownStale, NoFreshQualified, now, [])
      else NegativeDecision(kept, Protects(LastPositive(acc), now, cfg), cfg)
  }

  /** The decision on observations in their sorted order. */
  function Evaluate(obs: seq<Observation>, now: Time, cfg: Config): Decision {
    if !ValidThresholds(cfg) then Decision(UnknownStale, InvalidThresholds, now, [])
        else Judge(Accept(obs, now), now, cfg)
  }

  /** A decision on observations in any order: that of one of their arrangements oldest first.
      The sort is not stable, so equal identifiers at equal times may come either way. */
  ghost predicate Decides(input: seq<Observation>, now: Time, cfg: Config, d: Decision) {
    exists order :: Arranged(order, input, OldestFirst) && d == Evaluate(order, now, cfg)
  }

  // ------------------------------------------------------------------ the source's loops

  method EvaluateAvailability(input: seq<Observation>, now: Time, cfg: Config) returns (d: Decision)
    ensures Decides(input, now, cfg, d)
  {
    hide Accept, Greedy, After, FreshPositives, Negatives, LastPositive, LatestUnknown, ExpiryOf, Ids;
    d := Decision(UnknownStale, NoFreshQualified, now, []);
    OldestFirstIsOrder();
    var observations := Sort(input, OldestFirst);
    assert Arranged(observations, input, OldestFirst);
    if !ValidThresholds(cfg) {
      d := d.(reason := InvalidThresholds);
      return;
    }
    var positive, negatives, lastPositive, latestUnknown := ReadObservations(observations, now, cfg);
    if positive.Some? {
      return positive.value;
    }
    var kept := ThinByGap(negatives, latestUnknown, lastPositive, cfg);
    if |kept| == 0 {
      return;
    }
    d := DescribeNegatives(kept, cfg);
    if lastPositive != 0 && now - lastPositive < cfg.recentPositiveFor {
      d := d.(reason := RecentPositiveProtects);
      return;
    }
    if |kept| >= cfg.minimumObservations && kept[|kept| - 1].observedAt - kept[0].observedAt >= cfg.minimumSpan {
      d := d.(verdict := SuspectedUnavailable, reason := RepeatedNegative);
    }
  }

  /** A fresh positive decides; the newest one is remembered. */
  function PositiveDecision(acc: seq<Observation>, now: Time, cfg: Config): Option<Decision> {
    var positives := FreshPositives(acc, now, cfg);
    if positives == [] then None
    else Some(Decision(FreshPositive, FreshPublicPositive, FreshUntil(positives[|positives| - 1], cfg),
        [positives[|positives| - 1].id]))
  }

  /** The first loop, over the sorted observations. */
  method ReadObservations(observations: seq<Observation>, now: Time, cfg: Config)
    returns (positive: Option<Decision>, negatives: seq<Observation>, lastPositive: Time, latestUnknown: Time)
    ensures var acc := Accept(observations, now);
      && positive == PositiveDecision(acc, now, cfg) && negatives == Negatives(acc, now, cfg)
      && lastPositive == LastPositive(acc) && latestUnknown == LatestUnknown(acc)
  {
    hide FreshPositives, Negatives, LastPositive, LatestUnknown, PositiveDecision;
    var seen: set<string> := {};
    positive, negatives, lastPositive, latestUnknown := None, [], 0, 0;
    ghost var acc := [];
    NothingRead(now, cfg);
    for i := 0 to |observations|
      invariant acc == Accept(observations[..i], now)
      invariant forall id :: id in seen <==> Seen(acc, id)
      invariant positive == PositiveDecision(acc, now, cfg) && negatives == Negatives(acc, now, cfg)
      invariant lastPositive == LastPositive(acc) && latestUnknown == LatestUnknown(acc)
    {
      var o := observations[i];
      assert observations[..i + 1][..i] == observations[..i];
      if o.isPrivate || |o.id| == 0 || |o.source| == 0 || o.observedAt == 0 || o.observedAt > now
          || o.expiresAt <= o.observedAt || o.id in seen {
        continue;
      }
      seen := seen + {o.id};
      SeenOneMore(acc, o);
      ReadOneMore(acc, o, now, cfg);
      acc := acc + [o];
      if !o.qualified || o.kind == UnknownClass {
        if o.observedAt > latestUnknown {
          latestUnknown := o.observedAt;
        }
        continue;
      }
      if o.kind == Positive {
        if o.observedAt > lastPositive {
          lastPositive := o.observedAt;
        }
        if now < o.expiresAt && now - o.observedAt < cfg.freshFor {
          positive := Some(Decision(FreshPositive, FreshPublicPositive,
              Earlier(o.expiresAt, o.observedAt + cfg.freshFor), [o.id]));
        }
        continue;
      }
      if (o.kind == Zero || o.kind == Stall) && now < o.expiresAt && now - o.observedAt < cfg.freshFor {
        negatives := negatives + [o];
      }
    }
    assert observations[..|observations|] == observations;
  }

  lemma NothingRead(now: Time, cfg: Config)
    ensures PositiveDecision([], now, cfg) == None && Negatives([], now, cfg) == [] && LastPositive([]) == 0
      && LatestUnknown([]) == 0
  {
  }

  lemma ReadOneMore(acc: seq<Observation>, o: Observation, now: Time, cfg: Config)
    ensures PositiveDecision(acc + [o], now, cfg) ==
      if IsPositive(o) && Fresh(o, now, cfg)
          then Some(Decision(FreshPositive, FreshPublicPositive, FreshUntil(o, cfg), [o.id]))
          else PositiveDecision(acc, now, cfg)
    ensures Negatives(acc + [o], now, cfg) == Negatives(acc, now, cfg) + if IsNegative(o) && Fresh(o, now, cfg)
      then [o] else []
    ensures LastPositive(acc + [o]) ==
      if IsPositive(o) then Later(LastPositive(acc), o.observedAt) else LastPositive(acc)
    ensures LatestUnknown(acc + [o]) ==
      if IsUnknown(o) then Later(LatestUnknown(acc), o.observedAt) else LatestUnknown(acc)
  {
    assert (acc + [o])[..|acc|] == acc;
  }

  lemma SeenOneMore(acc: seq<Observation>, o: Observation)
    ensures forall id :: Seen(acc + [o], id) <==> Seen(acc, id) || id == o.id
  {
    forall id ensures Seen(acc + [o], id) <==> Seen(acc, id) || id == o.id {
      assert (acc + [o])[|acc|] == o;
      if Seen(acc, id) {
        var i :| 0 <= i < |acc| && acc[i].id == id;
        assert (acc + [o])[i].id == id;
      }
    }
  }

  /** The second loop: drop what a positive or unknown has overtaken, thin by the gap. */
  method ThinByGap(negatives: seq<Observation>, latestUnknown: Time, lastPositive: Time, cfg: Config)
      returns (kept: seq<Observation>)
    ensures kept == Greedy(After(negatives, Later(latestUnknown, lastPositive)), cfg.minimumGap)
  {
    kept := [];
    ghost var list := [];
    for i := 0 to |negatives|
      invariant list == After(negatives[..i], Later(latestUnknown, lastPositive))
        && kept == Greedy(list, cfg.minimumGap)
    {
      var o := negatives[i];
      assert negatives[..i + 1][..i] == negatives[..i];
      if o.observedAt <= latestUnknown || o.observedAt <= lastPositive {
        continue;
      }
      list := list + [o];
      assert list[..|list| - 1] == After(negatives[..i], Later(latestUnknown, lastPositive));
      if |kept| == 0 || o.observedAt - kept[|kept| - 1].observedAt >= cfg.minimumGap {
        kept := kept + [o];
      }
    }
    assert negatives[..|negatives|] == negatives;
  }

  /** The third loop: identifiers and the earliest expiry. */
  method DescribeNegatives(kept: seq<Observation>, cfg: Config) returns (d: Decision)
    requires |kept| > 0
    ensures d.expiresAt == ExpiryOf(kept, cfg) && d.ids == Ids(kept)
    ensures if kept[|kept| - 1].kind == Stall then d.verdict == UnknownStale && d.reason == ClientStall
            else d.verdict == FreshKnownZero && d.reason == SingleQualifiedZero
  {
    var latest := kept[|kept| - 1];
    d := Decision(FreshKnownZero, SingleQualifiedZero, Earlier(latest.expiresAt, latest.observedAt + cfg.freshFor), []);
    if latest.kind == Stall {
      d := d.(verdict := UnknownStale, reason := ClientStall);
    }
    for i := 0 to |kept|
      invariant d.ids == Ids(kept[..i])
      invariant d.expiresAt ==
        if i == 0 then FreshUntil(latest, cfg) else Earlier(FreshUntil(latest, cfg), ExpiryOf(kept[..i], cfg))
      invariant d.verdict == (if latest.kind == Stall then UnknownStale else FreshKnownZero)
      invariant d.reason == (if latest.kind == Stall then ClientStall else SingleQualifiedZero)
    {
      var o := kept[i];
      assert kept[..i + 1][..i] == kept[..i];
      d := d.(ids := d.ids + [o.id],
          expiresAt := Earlier(d.expiresAt, Earlier(o.expiresAt, o.observedAt + cfg.freshFor)));
    }
    assert kept[..|kept|] == kept;
  }
}
