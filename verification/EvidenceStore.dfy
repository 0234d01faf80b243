/**
The evidence table and the canonical label of every info hash: the strongest label-bearing
evidence, the most recent of equally strong, the first inserted of exact ties.
*/
module EvidenceStore {
  import opened Options

  type Time = int

  datatype Kind = WebhookImport | WebhookGrab | PollHistory | PollCategories | QBStateObservation

  /** The columns the unique index covers. */
  datatype DedupeKey = DedupeKey(source: string, kind: Kind, instance: string, objectId: string)

  datatype Evidence = Evidence(
    key: DedupeKey, downloadId: string, infoHash: seq<nat>,
    title: string, mediaType: string, mediaId: string, category: string, observedAt: Time, strength: nat)

  datatype Label = Label(
    mediaType: string, mediaId: string, category: string, title: string,
    resolvedFrom: nat, resolvedSource: string, resolvedStrength: nat, resolvedAt: Time)

  /** The evidence rows in order of insertion, a row's number being its identifier; and the
      canonical labels. */
  datatype Tables = Tables(rows: seq<Evidence>, canonical: map<seq<nat>, Label>)

  datatype Outcome = Inserted | NotUsable | Duplicate

  predicate LabelBearing(kind: Kind) {
    kind == WebhookImport || kind == WebhookGrab || kind == PollHistory || kind == PollCategories
  }

  predicate Present(rows: seq<Evidence>, key: DedupeKey) {
    exists i :: 0 <= i < |rows| && rows[i].key == key
  }

  function LabelFrom(e: Evidence, id: nat): Label {
    Label(e.mediaType, e.mediaId, e.category, e.title, id, e.key.source, e.strength, e.observedAt)
  }

  /** The stored label gives way to stronger evidence, or as strong and more recent. */
  predicate GivesWay(l: Label, e: Evidence) {
    l.resolvedStrength < e.strength || (l.resolvedStrength == e.strength && l.resolvedAt < e.observedAt)
  }

  function Upsert(canonical: map<seq<nat>, Label>, e: Evidence, id: nat): map<seq<nat>, Label> {
    if e.infoHash == [] || !LabelBearing(e.key.kind) then canonical
    else if e.infoHash in canonical && !GivesWay(canonical[e.infoHash], e) then canonical
    else canonical[e.infoHash := LabelFrom(e, id)]
  }

  function InsertStep(t: Tables, e: Evidence): (Tables, Outcome) {
    if e.infoHash == [] && e.downloadId == "" then (t, NotUsable)
    else if Present(t.rows, e.key) then (t, Duplicate)
    else (Tables(t.rows + [e], Upsert(t.canonical, e, |t.rows|)), Inserted)
  }

  const EMPTY := Tables([], map[])

  function Run(inputs: seq<Evidence>): Tables {
    if inputs == [] then EMPTY else InsertStep(Run(inputs[..|inputs| - 1]), inputs[|inputs| - 1]).0
  }

  class Store {
    var rows: seq<Evidence>
    var canonical: map<seq<nat>, Label>

    function View(): Tables
      reads this
    {
      Tables(rows, canonical)
    }

    constructor ()
      ensures View() == EMPTY
    {
      rows, canonical := [], map[];
    }

    method Insert(e: Evidence) returns (o: Outcome)
      modifies this
      ensures (View(), o) == InsertStep(old(View()), e)
    {
      if |e.infoHash| == 0 && e.downloadId == "" {
        return NotUsable;
      }
      if exists i :: 0 <= i < |rows| && rows[i].key == e.key {
        return Duplicate;
      }
      var evidenceId := |rows|;
      rows := rows + [e];
      if |e.infoHash| > 0 && LabelBearing(e.key.kind) {
        if e.infoHash !in canonical {
          canonical := canonical[e.infoHash := LabelFrom(e, evidenceId)];
        } else {
          var l := canonical[e.infoHash];
          if l.resolvedStrength < e.strength || (l.resolvedStrength == e.strength && l.resolvedAt < e.observedAt) {
            canonical := canonical[e.infoHash := LabelFrom(e, evidenceId)];
          }
        }
      }
      o := Inserted;
    }
  }

  // ----------------------------------------------------------- the strongest evidence

  /** Evidence that speaks for an info hash. */
  predicate Speaks(e: Evidence, h: seq<nat>) {
    h != [] && e.infoHash == h && e.key.kind in {WebhookImport, WebhookGrab, PollHistory, PollCategories}
  }

  /** The label says what the evidence says, and where it came from. */
  ghost predicate LabelOf(l: Label, e: Evidence) {
    && l.mediaType == e.mediaType && l.mediaId == e.mediaId && l.category == e.category && l.title == e.title
    && l.resolvedSource == e.key.source && l.resolvedStrength == e.strength && l.resolvedAt == e.observedAt
  }

  /** a is weaker than b: less strong, or as strong and less recent. */
  predicate Weaker(a: Evidence, b: Evidence) {
    a.strength < b.strength || (a.strength == b.strength && a.observedAt < b.observedAt)
  }

  /** Row i speaks for the hash, nothing that speaks for it is stronger, and everything
      inserted before it is weaker. */
  ghost predicate Strongest(rows: seq<Evidence>, h: seq<nat>, i: nat) {
    && i < |rows| && Speaks(rows[i], h)
    && (forall j :: 0 <= j < |rows| && Speaks(rows[j], h) ==>
        !Weaker(rows[i], rows[j]) && (j < i ==> Weaker(rows[j], rows[i])))
  }

  ghost predicate Spoken(rows: seq<Evidence>, h: seq<nat>) {
    exists i :: 0 <= i < |rows| && Speaks(rows[i], h)
  }

  /** The canonical labels are exactly those of the strongest evidence. */
  ghost predicate Projected(t: Tables) {
    && (forall h :: h in t.canonical <==> Spoken(t.rows, h))
    && (forall h :: h in t.canonical ==> var l := t.canonical[h];
          Strongest(t.rows, h, l.resolvedFrom) && LabelOf(l, t.rows[l.resolvedFrom]))
  }

  lemma SpokenOneMore(rows: seq<Evidence>, e: Evidence, h: seq<nat>)
    ensures Spoken(rows + [e], h) <==> Spoken(rows, h) || Speaks(e, h)
  {
    assert (rows + [e])[|rows|] == e;
    if Spoken(rows, h) {
      var i :| 0 <= i < |rows| && Speaks(rows[i], h);
      assert (rows + [e])[i] == rows[i];
    }
  }

  lemma StrongestOneMore(rows: seq<Evidence>, e: Evidence, h: seq<nat>, i: nat)
    requires Strongest(rows, h, i)
    ensures !(Speaks(e, h) && Weaker(rows[i], e)) ==> Strongest(rows + [e], h, i)
    ensures Speaks(e, h) && Weaker(rows[i], e) ==> Strongest(rows + [e], h, |rows|)
  {
    var more := rows + [e];
    assert forall j :: 0 <= j < |rows| ==> more[j] == rows[j];
  }

  lemma FirstIsStrongest(rows: seq<Evidence>, e: Evidence, h: seq<nat>)
    requires !Spoken(rows, h) && Speaks(e, h)
    ensures Strongest(rows + [e], h, |rows|)
  {
    var more := rows + [e];
    assert forall j :: 0 <= j < |rows| ==> more[j] == rows[j] && !Speaks(rows[j], h);
  }

  lemma InsertProjects(t: Tables, e: Evidence)
    requires Projected(t)
    ensures Projected(InsertStep(t, e).0)
  {
    hide Speaks, Weaker, Strongest, Spoken;
    var u := InsertStep(t, e).0;
    if u != t {
      forall h ensures (h in u.canonical <==> Spoken(u.rows, h))
                && (h in u.canonical ==> var l := u.canonical[h];
                    Strongest(u.rows, h, l.resolvedFrom) && l.resolvedFrom < |u.rows|
                    && l == LabelFrom(u.rows[l.resolvedFrom], l.resolvedFrom)) {
        ProjectsOne(t, e, h);
      }
    }
  }

  lemma ProjectsOne(t: Tables, e: Evidence, h: seq<nat>)
    requires Projected(t)
    ensures var rows, canonical := t.rows + [e], Upsert(t.canonical, e, |t.rows|);
      && (h in canonical <==> Spoken(rows, h))
      && (h in canonical ==> var l := canonical[h];
          Strongest(rows, h, l.resolvedFrom) && l == LabelFrom(rows[l.resolvedFrom], l.resolvedFrom))
  {
    SpokenOneMore(t.rows, e, h);
    if h in t.canonical {
      StrongestOneMore(t.rows, e, h, t.canonical[h].resolvedFrom);
    } else if Speaks(e, h) {
      FirstIsStrongest(t.rows, e, h);
    }
  }

  /** After any inserts, a hash has a canonical label exactly when accepted label-bearing
      evidence speaks for it, and the label is that of the strongest. */
  lemma {:induction false} CanonicalIsStrongest(inputs: seq<Evidence>)
    ensures Projected(Run(inputs))
    decreases |inputs|
  {
    hide InsertStep;
    if inputs != [] {
      CanonicalIsStrongest(inputs[..|inputs| - 1]);
      InsertProjects(Run(inputs[..|inputs| - 1]), inputs[|inputs| - 1]);
    }
  }

  // ------------------------------------------------------------------ accepted evidence

  predicate Usable(e: Evidence) {
    e.infoHash != [] || e.downloadId != ""
  }

  /** The first usable evidence that arrived under a dedupe key. */
  function FirstUnder(inputs: seq<Evidence>, key: DedupeKey): Option<Evidence> {
    if inputs == [] then None else
    var earlier, e := FirstUnder(inputs[..|inputs| - 1], key), inputs[|inputs| - 1];
    if earlier.Some? then earlier else if Usable(e) && e.key == key then Some(e) else None
  }

  /** One row for every dedupe key, and it is the first usable evidence under that key. */
  ghost predicate FirstOfEach(rows: seq<Evidence>, inputs: seq<Evidence>) {
    && (forall i, j :: 0 <= i < j < |rows| ==> rows[i].key != rows[j].key)
    && (forall i :: 0 <= i < |rows| ==> FirstUnder(inputs, rows[i].key) == Some(rows[i]))
    && (forall k :: Present(rows, k) <==> FirstUnder(inputs, k).Some?)
  }

  lemma FirstOneMore(inputs: seq<Evidence>, e: Evidence, k: DedupeKey)
    ensures FirstUnder(inputs + [e], k) ==
      if FirstUnder(inputs, k).Some? then FirstUnder(inputs, k) else if Usable(e) && e.key == k then Some(e) else None
  {
    assert (inputs + [e])[..|inputs|] == inputs;
  }

  lemma AcceptOneMore(rows: seq<Evidence>, inputs: seq<Evidence>, e: Evidence)
    requires FirstOfEach(rows, inputs)
    ensures FirstOfEach(if Usable(e) && !Present(rows, e.key) then rows + [e] else rows, inputs + [e])
  {
    hide FirstUnder, Usable, Present;
    forall k ensures FirstUnder(inputs + [e], k) ==
      if FirstUnder(inputs, k).Some? then FirstUnder(inputs, k) else if Usable(e) && e.key == k then Some(e) else None
    {
      FirstOneMore(inputs, e, k);
    }
    if Usable(e) && !Present(rows, e.key) {
      PresentOneMore(rows, e);
      var more := rows + [e];
      forall i, j | 0 <= i < j < |more| ensures more[i].key != more[j].key {
        assert more[i] == rows[i];
        RowPresent(rows, i);
        if j < |rows| { assert more[j] == rows[j]; }
      }
      forall i | 0 <= i < |more| ensures FirstUnder(inputs + [e], more[i].key) == Some(more[i]) {
        if i < |rows| { assert more[i] == rows[i]; }
      }
    }
  }

  lemma RowPresent(rows: seq<Evidence>, i: int)
    requires 0 <= i < |rows|
    ensures Present(rows, rows[i].key)
  {
  }

  /** What is accepted: usable evidence, the first under every dedupe key. */
  lemma {:induction false} AcceptedOnce(inputs: seq<Evidence>)
    ensures FirstOfEach(Run(inputs).rows, inputs)
    decreases |inputs|
  {
    hide Upsert, FirstOfEach, Present;
    if inputs == [] {
      NothingAccepted();
    } else {
      var before, e := inputs[..|inputs| - 1], inputs[|inputs| - 1];
      assert inputs == before + [e];
      AcceptedOnce(before);
      AcceptOneMore(Run(before).rows, before, e);
    }
  }

  lemma NothingAccepted()
    ensures FirstOfEach([], [])
  {
  }

  lemma PresentOneMore(rows: seq<Evidence>, e: Evidence)
    ensures forall k :: Present(rows + [e], k) <==> Present(rows, k) || k == e.key
  {
    forall k ensures Present(rows + [e], k) <==> Present(rows, k) || k == e.key {
      assert (rows + [e])[|rows|] == e;
      if Present(rows, k) {
        var i :| 0 <= i < |rows| && rows[i].key == k;
        assert (rows + [e])[i] == rows[i];
      }
    }
  }

  // ------------------------------------------------------------------------- arrival order

  /** No other evidence for the hash is exactly as strong and as recent. */
  ghost predicate Untied(rows: seq<Evidence>, h: seq<nat>, e: Evidence) {
    forall j :: 0 <= j < |rows| && Speaks(rows[j], h) && !Weaker(rows[j], e) && !Weaker(e, rows[j]) ==> rows[j] == e
  }

  /** However the same evidence arrives, the winners are equally strong and recent; and they
      are the same evidence unless they are exactly tied. */
  lemma OrderMattersOnlyAmongTies(first: seq<Evidence>, second: seq<Evidence>, h: seq<nat>)
    requires var a, b := Run(first), Run(second); (forall e :: e in a.rows <==> e in b.rows) && h in a.canonical
    ensures var a, b := Run(first), Run(second);
      && h in b.canonical
      && a.canonical[h].resolvedStrength == b.canonical[h].resolvedStrength
          && a.canonical[h].resolvedAt == b.canonical[h].resolvedAt
      && a.canonical[h].resolvedFrom < |a.rows|
      && (Untied(a.rows, h, a.rows[a.canonical[h].resolvedFrom]) ==>
          a.canonical[h] == b.canonical[h].(resolvedFrom := a.canonical[h].resolvedFrom))
  {
    hide Run, Weaker;
    CanonicalIsStrongest(first);
    CanonicalIsStrongest(second);
    WinnersTie(Run(first), Run(second), h);
  }

  lemma WinnersTie(a: Tables, b: Tables, h: seq<nat>)
    requires Projected(a) && Projected(b) && (forall e :: e in a.rows <==> e in b.rows) && h in a.canonical
    ensures h in b.canonical && a.canonical[h].resolvedFrom < |a.rows|
    ensures a.canonical[h].resolvedStrength == b.canonical[h].resolvedStrength
      && a.canonical[h].resolvedAt == b.canonical[h].resolvedAt
    ensures Untied(a.rows, h, a.rows[a.canonical[h].resolvedFrom]) ==>
      a.canonical[h] == b.canonical[h].(resolvedFrom := a.canonical[h].resolvedFrom)
  {
    var i := a.canonical[h].resolvedFrom;
    var x := a.rows[i];
    assert Strongest(a.rows, h, i) && x in b.rows;
    var k :| 0 <= k < |b.rows| && b.rows[k] == x;
    assert Spoken(b.rows, h);
    var j := b.canonical[h].resolvedFrom;
    var y := b.rows[j];
    assert Strongest(b.rows, h, j) && y in a.rows;
    var m :| 0 <= m < |a.rows| && a.rows[m] == y;
    assert !Weaker(x, y) && !Weaker(y, x);
  }

  // --------------------------------------------------------------- other kinds of evidence

  function OnlyLabels(inputs: seq<Evidence>): seq<Evidence> {
    if inputs == [] then [] else
    var rest, e := OnlyLabels(inputs[..|inputs| - 1]), inputs[|inputs| - 1];
    if LabelBearing(e.key.kind) then rest + [e] else rest
  }

  /** The same labels, and the same label-bearing evidence present. */
  ghost predicate SameLabels(a: Tables, b: Tables) {
    && (forall k: DedupeKey :: LabelBearing(k.kind) ==> (Present(a.rows, k) <==> Present(b.rows, k)))
    && (forall h :: h in a.canonical <==> h in b.canonical)
    && (forall h :: h in a.canonical ==> a.canonical[h].(resolvedFrom := 0) == b.canonical[h].(resolvedFrom := 0))
  }

  lemma InsertSame(a: Tables, b: Tables, e: Evidence)
    requires SameLabels(a, b) && LabelBearing(e.key.kind)
    ensures SameLabels(InsertStep(a, e).0, InsertStep(b, e).0)
  {
    hide Present;
    PresentOneMore(a.rows, e);
    PresentOneMore(b.rows, e);
  }

  lemma InsertOther(a: Tables, b: Tables, e: Evidence)
    requires SameLabels(a, b) && !LabelBearing(e.key.kind)
    ensures SameLabels(InsertStep(a, e).0, b)
  {
    hide Present;
    PresentOneMore(a.rows, e);
  }

  /** Evidence of other kinds never affects a canonical label: without it every label is the
      same, but for the number of the row it came from. */
  lemma {:induction false} OtherKindsNeverCount(inputs: seq<Evidence>)
    ensures SameLabels(Run(inputs), Run(OnlyLabels(inputs)))
    decreases |inputs|
  {
    hide InsertStep, SameLabels;
    if inputs == [] {
      NothingSame();
    } else {
      var before, e := inputs[..|inputs| - 1], inputs[|inputs| - 1];
      OtherKindsNeverCount(before);
      if LabelBearing(e.key.kind) {
        InsertSame(Run(before), Run(OnlyLabels(before)), e);
        assert (OnlyLabels(before) + [e])[..|OnlyLabels(before)|] == OnlyLabels(before);
      } else {
        InsertOther(Run(before), Run(OnlyLabels(before)), e);
      }
    }
  }

  lemma NothingSame()
    ensures SameLabels(EMPTY, EMPTY)
  {
  }
}
