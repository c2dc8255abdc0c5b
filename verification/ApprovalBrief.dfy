/** What a valid decision brief is: signals, their evidence and the links between them. */
module ApprovalBrief {
  import opened Wrappers
  import opened Sequences
  import opened Timestamps

  /** Code units. */
  type Id = seq<int>

  datatype Span = Span(meeting: string, block: string, quote: Option<string>, started: Option<Text>, ended: Option<Text>)

  datatype Detail =
    | Decision(status: string)
    | Action(owner: Option<string>, due: Option<Text>)
    | Rationale(supports: seq<Id>)

  datatype Signal = Signal(
    id: Id, text: string, subject: Option<string>, confidence: Option<real>, evidence: seq<Span>, detail: Detail)

  /** `header` stands for everything a brief and its snapshot carry beside the signals and their meeting. */
  datatype Brief = Brief(meeting: string, decisions: seq<Signal>, actions: seq<Signal>, rationales: seq<Signal>, header: string)

  const MAXIMUM_LINKS := 1000

  const DECISION_STATUSES: set<string> := {"proposed", "decided", "unresolved"}

  // ---------------------------------------------------------------- one signal

  predicate NonEmpty(s: Option<string>) { s.Some? ==> s.value != "" }

  predicate IsSpan(span: Span, meeting: string) {
    span.meeting == meeting && span.block != "" && NonEmpty(span.quote) && Optional(span.started) && Optional(span.ended)
  }

  predicate IsEvidence(evidence: seq<Span>, meeting: string) {
    evidence != [] && forall i :: 0 <= i < |evidence| ==> IsSpan(evidence[i], meeting)
  }

  predicate IsDetail(d: Detail) {
    match d
    case Decision(status) => status in DECISION_STATUSES
    case Action(owner, due) => NonEmpty(owner) && Optional(due)
    case Rationale(supports) => |supports| <= MAXIMUM_LINKS && forall i :: 0 <= i < |supports| ==> supports[i] != []
  }

  predicate IsSignal(s: Signal, meeting: string) {
    s.id != [] && s.text != "" && NonEmpty(s.subject)
    && (s.confidence.Some? ==> 0.0 <= s.confidence.value <= 1.0)
    && IsEvidence(s.evidence, meeting) && IsDetail(s.detail)
  }

  function IdOf(): Signal -> Id { (s: Signal) => s.id }

  function Ids(signals: seq<Signal>): seq<Id> { Map(IdOf(), signals) }

  function Signals(b: Brief): seq<Signal> { b.decisions + b.actions + b.rationales }

  predicate LinksWithin(s: Signal, ids: seq<Id>) {
    s.detail.Rationale? ==> forall i :: 0 <= i < |s.detail.supports| ==> s.detail.supports[i] != s.id && s.detail.supports[i] in ids
  }

  /** One collection: signals of the kind it is for. */
  predicate IsCollection(signals: seq<Signal>, meeting: string, kind: Detail -> bool) {
    forall i :: 0 <= i < |signals| ==> IsSignal(signals[i], meeting) && kind(signals[i].detail)
  }

  function IsDecision(): Detail -> bool { (d: Detail) => d.Decision? }
  function IsAction(): Detail -> bool { (d: Detail) => d.Action? }
  function IsRationale(): Detail -> bool { (d: Detail) => d.Rationale? }

  /** A brief as it must be: ids unique over all collections, and rationales that link other signals of the brief. */
  ghost predicate IsBrief(b: Brief) {
    IsCollection(b.decisions, b.meeting, IsDecision())
    && IsCollection(b.actions, b.meeting, IsAction())
    && IsCollection(b.rationales, b.meeting, IsRationale())
    && Distinct(Ids(Signals(b)))
    && forall i :: 0 <= i < |Signals(b)| ==> LinksWithin(Signals(b)[i], Ids(Signals(b)))
  }

  // ---------------------------------------------------------------- the validator

  ghost predicate Fresh(signals: seq<Signal>, ids: set<Id>) {
    Distinct(Ids(signals)) && forall i :: 0 <= i < |signals| ==> signals[i].id !in ids
  }

  /** assertSignalArray: checks one collection and adds its ids to those seen. */
  method CheckSignals(signals: seq<Signal>, meeting: string, kind: Detail -> bool, seen: set<Id>)
    returns (ok: bool, ids: set<Id>)
    ensures ok <==> IsCollection(signals, meeting, kind) && Fresh(signals, seen)
    ensures ok ==> forall x :: x in ids <==> x in seen || x in Ids(signals)
  {
    ids := seen;
    for index := 0 to |signals|
      invariant forall i :: 0 <= i < index ==> IsSignal(signals[i], meeting) && kind(signals[i].detail)
      invariant forall i, j :: 0 <= i < j < index ==> signals[i].id != signals[j].id
      invariant forall i :: 0 <= i < index ==> signals[i].id !in seen
      invariant forall x :: x in ids <==> x in seen || exists i :: 0 <= i < index && signals[i].id == x
    {
      var signal := signals[index];
      if signal.id == [] || signal.id in ids || !kind(signal.detail) {
        if signal.id in ids && signal.id !in seen {
          var i :| 0 <= i < index && signals[i].id == signal.id;
          assert Ids(signals)[i] == Ids(signals)[index];
        }
        return false, ids;
      }
      ids := ids + {signal.id};
      if !IsSignal(signal, meeting) { return false, ids; }
    }
    forall x ensures x in ids <==> x in seen || x in Ids(signals) {
      if x in Ids(signals) {
        var i :| 0 <= i < |signals| && Ids(signals)[i] == x;
        assert signals[i].id == x;
      }
      if x in ids && x !in seen {
        var i :| 0 <= i < |signals| && signals[i].id == x;
        assert Ids(signals)[i] == x;
      }
    }
    return true, ids;
  }

  /** assertRationaleLinks. */
  method CheckLinks(signals: seq<Signal>) returns (ok: bool)
    ensures ok <==> forall i :: 0 <= i < |signals| ==> LinksWithin(signals[i], Ids(signals))
  {
    var ids := Ids(signals);
    for index := 0 to |signals|
      invariant forall i :: 0 <= i < index ==> LinksWithin(signals[i], ids)
    {
      if !LinksWithin(signals[index], ids) { return false; }
    }
    return true;
  }

  lemma IdsConcat(a: seq<Signal>, b: seq<Signal>)
    ensures Ids(a + b) == Ids(a) + Ids(b)
  {
    MapConcat(IdOf(), a, b);
  }

  /** Three collections checked one after the other have ids unique over all of them, and conversely. */
  lemma DistinctOverAll(a: seq<Signal>, b: seq<Signal>, seen: set<Id>)
    requires forall x :: x in seen <==> x in Ids(a)
    requires Distinct(Ids(a))
    ensures Fresh(b, seen) <==> Distinct(Ids(a + b))
  {
    IdsConcat(a, b);
    if Fresh(b, seen) {
      forall i | 0 <= i < |b| ensures Ids(b)[i] !in Ids(a) { assert b[i].id !in seen; }
      assert forall x :: x in Ids(a) ==> x !in Ids(b);
      DistinctConcat(Ids(a), Ids(b));
    }
    if Distinct(Ids(a + b)) {
      DistinctParts(Ids(a), Ids(b));
      forall i | 0 <= i < |b| ensures b[i].id !in seen {
        forall j | 0 <= j < |a| ensures Ids(a)[j] != b[i].id { assert Ids(b)[i] == b[i].id; }
      }
    }
  }

  /** The signal checks of assertOrganizationRecordDecisionBrief accept exactly the valid briefs. */
  method CheckBrief(b: Brief) returns (ok: bool)
    ensures ok <==> IsBrief(b)
  {
    var decisions, actions, rationales := b.decisions, b.actions, b.rationales;
    var ids: set<Id> := {};
    ok, ids := CheckSignals(decisions, b.meeting, IsDecision(), ids);
    DistinctOverAll([], decisions, {});
    assert [] + decisions == decisions;
    if !ok { NotDistinct(decisions, actions + rationales); assert decisions + (actions + rationales) == Signals(b); return; }
    ghost var seen := ids;
    ok, ids := CheckSignals(actions, b.meeting, IsAction(), ids);
    DistinctOverAll(decisions, actions, seen);
    if !ok { NotDistinct(decisions + actions, rationales); return; }
    IdsConcat(decisions, actions);
    seen := ids;
    ok, ids := CheckSignals(rationales, b.meeting, IsRationale(), ids);
    DistinctOverAll(decisions + actions, rationales, seen);
    if !ok { return; }
    ok := CheckLinks(decisions + actions + rationales);
  }

  lemma NotDistinct(a: seq<Signal>, b: seq<Signal>)
    ensures Distinct(Ids(a + b)) ==> Distinct(Ids(a))
  {
    IdsConcat(a, b);
    if Distinct(Ids(a + b)) { DistinctParts(Ids(a), Ids(b)); }
  }
}
