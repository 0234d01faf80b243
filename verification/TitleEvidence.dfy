/**
TitleEvidence: the identity other labelled torrents agree on for a title. A torrent's own
label is never evidence for itself, and a winner needs two thirds of the votes.
*/
module TitleEvidence {
  import opened Options

  /** An info hash in hexadecimal. */
  type Hash = string

  datatype Vote = Vote(mediaType: string, source: string, id: string)

  /** A label with its torrent's name reduced to a title key, and the identity it votes for.
      No ballot: the label's media type or identifier names nothing in the catalogue, or the
      name has no title. */
  datatype Label = Label(infoHash: Hash, ballot: Option<Ballot>)
  datatype Ballot = Ballot(key: string, vote: Vote)

  datatype Index = Index(votes: map<string, map<Vote, nat>>, self: map<Hash, Ballot>)
  datatype State = NotBuilt | NotLoadable | Built(index: Index)

  datatype Outcome = Applied(winner: Vote) | NoKey | NoPreference | Weak | NoIndex

  const MIN_VOTES := 2
  const TTL := 15 * 60 * 1_000_000_000
  const RETRY := 60 * 1_000_000_000

  // -------------------------------------------------------------- the votes in a list of labels

  predicate Casts(l: Label, key: string, vote: Vote) {
    l.ballot == Some(Ballot(key, vote))
  }

  predicate CastsUnder(l: Label, key: string) {
    l.ballot.Some? && l.ballot.value.key == key
  }

  function Votes(labels: seq<Label>, key: string, vote: Vote): nat {
    if labels == [] then 0
        else Votes(labels[..|labels| - 1], key, vote) + if Casts(labels[|labels| - 1], key, vote) then 1 else 0
  }

  function Voters(labels: seq<Label>, key: string): nat {
    if labels == [] then 0 else Voters(labels[..|labels| - 1], key) + if CastsUnder(labels[|labels| - 1], key) then 1
        else 0
  }

  /** Enough votes, and at least two thirds of them. */
  predicate Wins(n: nat, total: nat) {
    n >= MIN_VOTES && 3 * n >= 2 * total
  }

  /** What labels say about a title, whatever the order in which they are counted. */
  ghost function Verdict(labels: seq<Label>, key: string): Outcome {
    if key == "" then NoKey
    else if Voters(labels, key) == 0 then NoPreference
    else if vote :| Wins(Votes(labels, key, vote), Voters(labels, key)) then Applied(vote)
    else Weak
  }

  function Others(labels: seq<Label>, h: Hash): seq<Label> {
    if labels == [] then [] else
    var rest, l := Others(labels[..|labels| - 1], h), labels[|labels| - 1];
    if l.infoHash == h then rest else rest + [l]
  }

  /** The last ballot under an info hash. */
  function Own(labels: seq<Label>, h: Hash): Option<Ballot> {
    if labels == [] then None else
    var l := labels[|labels| - 1];
    if l.infoHash == h && l.ballot.Some? then l.ballot else Own(labels[..|labels| - 1], h)
  }

  ghost predicate DistinctHashes(labels: seq<Label>) {
    forall i, j :: 0 <= i < j < |labels| ==> labels[i].infoHash != labels[j].infoHash
  }

  /** The index counts exactly the labels. */
  ghost predicate IsIndex(idx: Index, labels: seq<Label>) {
    && (forall k :: k in idx.votes <==> Voters(labels, k) > 0)
    && (forall k, v :: k in idx.votes ==> (v in idx.votes[k] <==> Votes(labels, k, v) > 0))
    && (forall k, v :: k in idx.votes && v in idx.votes[k] ==> idx.votes[k][v] == Votes(labels, k, v))
    && (forall h :: h in idx.self <==> Own(labels, h).Some?)
    && (forall h :: h in idx.self ==> Own(labels, h) == Some(idx.self[h]))
  }

  // --------------------------------------------------------------------------- counting

  lemma VotesOneMore(labels: seq<Label>, l: Label)
    ensures forall k, v :: Votes(labels + [l], k, v) == Votes(labels, k, v) + if Casts(l, k, v) then 1 else 0
    ensures forall k :: Voters(labels + [l], k) == Voters(labels, k) + if CastsUnder(l, k) then 1 else 0
    ensures forall h :: Own(labels + [l], h) == if l.infoHash == h && l.ballot.Some? then l.ballot else Own(labels, h)
    ensures forall h :: Others(labels + [l], h) == Others(labels, h) + if l.infoHash == h then [] else [l]
  {
    assert (labels + [l])[..|labels|] == labels;
  }

  lemma {:induction false} VotesAreVoters(labels: seq<Label>, key: string, vote: Vote)
    ensures Votes(labels, key, vote) <= Voters(labels, key)
    decreases |labels|
  {
    if labels != [] { VotesAreVoters(labels[..|labels| - 1], key, vote); }
  }

  lemma {:induction false} TwoVotesAreVoters(labels: seq<Label>, key: string, a: Vote, b: Vote)
    requires a != b
    ensures Votes(labels, key, a) + Votes(labels, key, b) <= Voters(labels, key)
    decreases |labels|
  {
    if labels != [] { TwoVotesAreVoters(labels[..|labels| - 1], key, a, b); }
  }

  /** At most one identity can have two thirds of the votes. */
  lemma WinnerUnique(labels: seq<Label>, key: string, a: Vote, b: Vote)
    requires Wins(Votes(labels, key, a), Voters(labels, key)) && Wins(Votes(labels, key, b), Voters(labels, key))
    ensures a == b
  {
    if a != b { TwoVotesAreVoters(labels, key, a, b); }
  }

  lemma NothingCast(h: Hash, key: string, vote: Vote)
    ensures Votes([], key, vote) == 0 && Others([], h) == [] && Own([], h) == None
  {
  }

  /** Taking a torrent's label away takes away its one ballot, if info hashes are distinct. */
  lemma {:induction false} OwnBallotRemoved(labels: seq<Label>, h: Hash, key: string, vote: Vote)
    requires DistinctHashes(labels)
    ensures Votes(labels, key, vote) ==
      Votes(Others(labels, h), key, vote) + if Own(labels, h) == Some(Ballot(key, vote)) then 1 else 0
    decreases |labels|
  {
    hide Votes, Voters, Others, Own;
    if labels == [] {
      NothingCast(h, key, vote);
    } else {
      var rest, l := labels[..|labels| - 1], labels[|labels| - 1];
      assert labels == rest + [l] && DistinctHashes(rest);
      OwnBallotRemoved(rest, h, key, vote);
      VotesOneMore(rest, l);
      if l.infoHash == h {
        NoneUnder(rest, h);
        assert Others(rest, h) + [] == rest;
      } else {
        VotesOneMore(Others(rest, h), l);
      }
    }
  }

  lemma {:induction false} NoneUnder(labels: seq<Label>, h: Hash)
    requires forall i :: 0 <= i < |labels| ==> labels[i].infoHash != h
    ensures Own(labels, h) == None && Others(labels, h) == labels
    decreases |labels|
  {
    if labels != [] {
      NoneUnder(labels[..|labels| - 1], h);
      assert labels == labels[..|labels| - 1] + [labels[|labels| - 1]];
    }
  }

  /** The votes cast for members of a set. */
  function VotesIn(labels: seq<Label>, key: string, s: set<Vote>): nat {
    if labels == [] then 0 else
    var l := labels[|labels| - 1];
    VotesIn(labels[..|labels| - 1], key, s) + if CastsUnder(l, key) && l.ballot.value.vote in s then 1 else 0
  }

  lemma {:induction false} VotesInOneMore(labels: seq<Label>, key: string, s: set<Vote>, v: Vote)
    requires v !in s
    ensures VotesIn(labels, key, s + {v}) == VotesIn(labels, key, s) + Votes(labels, key, v)
    decreases |labels|
  {
    if labels != [] { VotesInOneMore(labels[..|labels| - 1], key, s, v); }
  }

  lemma {:induction false} VotesInNone(labels: seq<Label>, key: string)
    ensures VotesIn(labels, key, {}) == 0
    decreases |labels|
  {
    if labels != [] { VotesInNone(labels[..|labels| - 1], key); }
  }

  lemma {:induction false} VotesInAll(labels: seq<Label>, key: string, s: set<Vote>)
    requires forall v :: Votes(labels, key, v) > 0 ==> v in s
    ensures VotesIn(labels, key, s) == Voters(labels, key)
    decreases |labels|
  {
    if labels != [] {
      var rest, l := labels[..|labels| - 1], labels[|labels| - 1];
      forall v | Votes(rest, key, v) > 0 ensures v in s { assert Votes(labels, key, v) > 0; }
      VotesInAll(rest, key, s);
      if CastsUnder(l, key) { assert Votes(labels, key, l.ballot.value.vote) > 0; }
    }
  }

  // ------------------------------------------------------------------- the source's loops

  class TitleIndex {
    var state: State
    var nextRefresh: int

    constructor ()
      ensures state == NotBuilt && nextRefresh == 0
    {
      state, nextRefresh := NotBuilt, 0;
    }

    /** Load the labels and count them; keep what there was if they cannot be loaded. */
    method Rebuild(now: int, loaded: Option<seq<Label>>)
      modifies this
      ensures loaded.Some? ==>
        state.Built? && IsIndex(state.index, loaded.value) && nextRefresh == now + 900_000_000_000
      ensures loaded.None? ==>
        state == (if old(state).NotBuilt? then NotLoadable else old(state)) && nextRefresh == now + 60_000_000_000
    {
      if loaded.None? {
        if state.NotBuilt? {
          state := NotLoadable;
        }
        nextRefresh := now + RETRY;
        return;
      }
      var idx := CountLabels(loaded.value);
      state, nextRefresh := Built(idx), now + TTL;
    }

    /** The identity preferred for a torrent, by its info hash and its title key. */
    method Preferred(h: Hash, key: string, ghost labels: seq<Label>) returns (o: Outcome)
      requires state.Built? ==> IsIndex(state.index, labels) && DistinctHashes(labels)
      ensures !state.Built? ==> o == NoIndex
      ensures state.Built? ==> o == Verdict(Others(labels, h), key)
    {
      if !state.Built? {
        return NoIndex;
      }
      if key == "" {
        return NoKey;
      }
      o := Elect(state.index, h, key, labels);
    }
  }

  method CountLabels(labels: seq<Label>) returns (idx: Index)
    ensures IsIndex(idx, labels)
  {
    hide Votes, Voters, Own, Others;
    idx := Index(map[], map[]);
    NothingCounted();
    for i := 0 to |labels|
      invariant IsIndex(idx, labels[..i])
    {
      var l := labels[i];
      assert labels[..i + 1] == labels[..i] + [l];
      VotesOneMore(labels[..i], l);
      if l.ballot.None? {
        continue;
      }
      var key, v := l.ballot.value.key, l.ballot.value.vote;
      var counts := if key in idx.votes then idx.votes[key] else map[];
      var n := if v in counts then counts[v] else 0;
      forall w ensures Votes(labels[..i], key, w) <= Voters(labels[..i], key) { VotesAreVoters(labels[..i], key, w); }
      idx := Index(idx.votes[key := counts[v := n + 1]], idx.self[l.infoHash := l.ballot.value]);
    }
    assert labels[..|labels|] == labels;
  }

  lemma NothingCounted()
    ensures forall k :: Voters([], k) == 0
    ensures forall k, v :: Votes([], k, v) == 0
    ensures forall h :: Own([], h) == None
  {
  }

  /** What a vote counts for in an index, the torrent's own ballot left out. */
  function Remaining(idx: Index, h: Hash, key: string, v: Vote): int
    requires key in idx.votes && v in idx.votes[key]
  {
    idx.votes[key][v] as int - if h in idx.self && idx.self[h] == Ballot(key, v) then 1 else 0
  }

  /** The index, read without the own ballot, counts the other torrents' labels. */
  lemma RemainingVotes(idx: Index, labels: seq<Label>, h: Hash, key: string, v: Vote)
    requires IsIndex(idx, labels) && DistinctHashes(labels)
    ensures if key in idx.votes && v in idx.votes[key]
      then Votes(Others(labels, h), key, v) == Remaining(idx, h, key, v)
            else Votes(Others(labels, h), key, v) == 0
  {
    hide Votes, Voters, Own, Others, DistinctHashes;
    OwnBallotRemoved(labels, h, key, v);
    VotesAreVoters(labels, key, v);
  }

  /** Count the votes under a title in any order, leaving the torrent's own ballot out. */
  method Tally(idx: Index, h: Hash, key: string, ghost others: seq<Label>)
      returns (best: Option<Vote>, bestN: nat, total: nat)
    requires key in idx.votes
    requires forall v :: Votes(others, key, v) == if v in idx.votes[key] then Remaining(idx, h, key, v) else 0
    ensures total == Voters(others, key)
    ensures forall v :: Votes(others, key, v) <= bestN
    ensures bestN > 0 ==> best.Some? && Votes(others, key, best.value) == bestN
  {
    hide Votes, Voters, VotesIn;
    var votes := idx.votes[key];
    VotesInNone(others, key);
    best, bestN, total := None, 0, 0;
    var pending := votes.Keys;
    ghost var done: set<Vote> := {};
    while pending != {}
      invariant done + pending == votes.Keys && done !! pending
      invariant total == VotesIn(others, key, done)
      invariant forall v :: v in done ==> Votes(others, key, v) <= bestN
      invariant bestN > 0 ==> best.Some? && Votes(others, key, best.value) == bestN
      decreases |pending|
    {
      var v :| v in pending;
      pending := pending - {v};
      VotesInOneMore(others, key, done, v);
      done := done + {v};
      var n: int := votes[v];
      if h in idx.self && idx.self[h].key == key && idx.self[h].vote == v {
        n := n - 1;
      }
      assert n == Votes(others, key, v);
      total := total + n;
      if n > bestN {
        best, bestN := Some(v), n;
      }
    }
    VotesInAll(others, key, done);
  }

  method Elect(idx: Index, h: Hash, key: string, ghost labels: seq<Label>) returns (o: Outcome)
    requires IsIndex(idx, labels) && DistinctHashes(labels) && key != ""
    ensures o == Verdict(Others(labels, h), key)
  {
    hide Votes, Voters, Own, Others, DistinctHashes, IsIndex, Remaining;
    ghost var others := Others(labels, h);
    forall v ensures if key in idx.votes && v in idx.votes[key]
        then Votes(others, key, v) == Remaining(idx, h, key, v) else Votes(others, key, v) == 0 {
      RemainingVotes(idx, labels, h, key, v);
    }
    if key !in idx.votes {
      NoVoters(others, key);
      return NoPreference;
    }
    var best, bestN, total := Tally(idx, h, key, others);
    if total == 0 {
      return NoPreference;
    }
    if bestN < MIN_VOTES || 3 * bestN < 2 * total {
      return Weak;
    }
    forall v | Wins(Votes(others, key, v), total) ensures v == best.value { WinnerUnique(others, key, v, best.value); }
    o := Applied(best.value);
  }

  lemma NoVoters(labels: seq<Label>, key: string)
    requires forall v :: Votes(labels, key, v) == 0
    ensures Voters(labels, key) == 0
  {
    VotesInAll(labels, key, {});
    VotesInNone(labels, key);
  }

  // --------------------------------------------------------------------------------- laws

  /** A winner is the only identity with two thirds of the votes, and there is a winner
      whenever there is such an identity. */
  lemma AppliedExactly(labels: seq<Label>, key: string, vote: Vote)
    requires key != ""
    ensures Verdict(labels, key) == Applied(vote) <==>
      Votes(labels, key, vote) >= 2 && 3 * Votes(labels, key, vote) >= 2 * Voters(labels, key)
  {
    if Wins(Votes(labels, key, vote), Voters(labels, key)) {
      VotesAreVoters(labels, key, vote);
      var other :| Verdict(labels, key) == Applied(other) && Wins(Votes(labels, key, other), Voters(labels, key));
      WinnerUnique(labels, key, vote, other);
    }
  }

  /** The other outcomes: a name without a title has no key, a title nobody else is labelled under
      has no preference, and a vote without a winner is weak. */
  lemma OtherOutcomes(labels: seq<Label>, key: string)
    ensures Verdict(labels, key) == NoKey <==> key == ""
    ensures Verdict(labels, key) == NoPreference <==>
      key != "" && forall l :: l in labels ==> !(l.ballot.Some? && l.ballot.value.key == key)
    ensures Verdict(labels, key) == Weak <==>
      && key != "" && Verdict(labels, key) != NoPreference
      && forall v :: Votes(labels, key, v) < 2 || 3 * Votes(labels, key, v) < 2 * Voters(labels, key)
    ensures Verdict(labels, key) != NoIndex
  {
    NobodyVotes(labels, key);
    if key != "" && Voters(labels, key) != 0 {
      if vote :| Wins(Votes(labels, key, vote), Voters(labels, key)) {
        AppliedExactly(labels, key, vote);
      }
    }
  }

  lemma {:induction false} NobodyVotes(labels: seq<Label>, key: string)
    ensures Voters(labels, key) == 0 <==>
      forall l :: l in labels ==> !(l.ballot.Some? && l.ballot.value.key == key)
    decreases |labels|
  {
    if labels != [] {
      var rest, l := labels[..|labels| - 1], labels[|labels| - 1];
      NobodyVotes(rest, key);
      assert labels == rest + [l];
    }
  }

  // ----------------------------------------------------------------------- leave one out

  lemma {:induction false} OthersOnce(labels: seq<Label>, h: Hash)
    ensures forall i :: 0 <= i < |Others(labels, h)| ==>
      Others(labels, h)[i] in labels && Others(labels, h)[i].infoHash != h
    decreases |labels|
  {
    if labels != [] {
      OthersOnce(labels[..|labels| - 1], h);
      assert labels == labels[..|labels| - 1] + [labels[|labels| - 1]];
    }
  }

  lemma AppendDistinct(labels: seq<Label>, l: Label)
    requires DistinctHashes(labels) && forall i :: 0 <= i < |labels| ==> labels[i].infoHash != l.infoHash
    ensures DistinctHashes(labels + [l])
  {
  }

  lemma InitDistinct(labels: seq<Label>, l: Label)
    requires DistinctHashes(labels + [l])
    ensures DistinctHashes(labels) && forall x :: x in labels ==> x.infoHash != l.infoHash
  {
    var all := labels + [l];
    forall i | 0 <= i < |labels| ensures labels[i].infoHash != l.infoHash {
      assert all[i] == labels[i] && all[|labels|] == l;
    }
    forall i, j | 0 <= i < j < |labels| ensures labels[i].infoHash != labels[j].infoHash {
      assert all[i] == labels[i] && all[j] == labels[j];
    }
  }

  lemma {:induction false} OthersDistinct(labels: seq<Label>, h: Hash)
    requires DistinctHashes(labels)
    ensures DistinctHashes(Others(labels, h))
    decreases |labels|
  {
    hide DistinctHashes, Others, Votes, Voters, Own;
    if labels == [] {
      NothingCast(h, "", Vote("", "", ""));
    } else {
      var rest, l := labels[..|labels| - 1], labels[|labels| - 1];
      assert labels == rest + [l];
      InitDistinct(rest, l);
      VotesOneMore(rest, l);
      OthersDistinct(rest, h);
      OthersOnce(rest, h);
      AppendDistinct(Others(rest, h), l);
      assert Others(rest, h) + [] == Others(rest, h);
    }
  }

  /** What Preferred counts for an identity in an index, the own ballot left out. */
  function Counted(idx: Index, h: Hash, key: string, v: Vote): int {
    if key in idx.votes && v in idx.votes[key] then Remaining(idx, h, key, v) else 0
  }

  /** An index built with the torrent's own label and one built without it give every
      identity the same count for that torrent, and the same verdict. */
  lemma LeaveOneOut(full: Index, rest: Index, labels: seq<Label>, h: Hash, key: string)
    requires DistinctHashes(labels) && IsIndex(full, labels) && IsIndex(rest, Others(labels, h))
    ensures forall v :: Counted(full, h, key, v) == Counted(rest, h, key, v)
    ensures Others(Others(labels, h), h) == Others(labels, h)
    ensures Verdict(Others(labels, h), key) == Verdict(Others(Others(labels, h), h), key)
  {
    hide Votes, Voters, Own, Others, DistinctHashes, IsIndex, Remaining, Verdict;
    var others := Others(labels, h);
    OthersDistinct(labels, h);
    OthersOnce(labels, h);
    NoneUnder(others, h);
    forall v ensures Counted(full, h, key, v) == Counted(rest, h, key, v) {
      RemainingVotes(full, labels, h, key, v);
      RemainingVotes(rest, others, h, key, v);
    }
  }
}
