/** The part of an approved brief that one destination's record holds. */
module ApprovalSubset {
  import opened Wrappers
  import opened Sequences
  import opened ApprovalBrief

  /** A destination: its projects (none for Only me), and the items routed to it. */
  datatype Group = Group(projects: seq<Id>, private: Option<bool>, unsupported: Option<bool>, signals: seq<Id>)

  /** Read by the members of its projects. */
  predicate IsProject(g: Group) { g.projects != [] && g.private != Some(true) }

  function Items(b: Brief): seq<Id> { Ids(b.decisions + b.actions) }

  /** The group names items of the proposal, each once, and only a private group in a project takes loose reasons. */
  predicate IsGroupOf(g: Group, b: Brief) {
    g.signals != [] && (forall i, j :: 0 <= i < j < |g.signals| ==> g.signals[i] != g.signals[j])
    && (forall i :: 0 <= i < |g.signals| ==> g.signals[i] in Items(b))
    && (g.private.Some? ==> g.private == Some(true) && g.projects != [])
    && (g.unsupported.Some? ==> g.unsupported == Some(true) && g.private == Some(true))
  }

  // ---------------------------------------------------------------- the subset

  function Named(g: Group): Signal -> bool { (s: Signal) => s.id in g.signals }

  function WithoutQuote(): Span -> Span { (span: Span) => span.(quote := None) }

  function Unquoted(g: Group): Signal -> Signal {
    (s: Signal) => if IsProject(g) then s.(evidence := Map(WithoutQuote(), s.evidence)) else s
  }

  function InGroup(g: Group): Id -> bool { (id: Id) => id in g.signals }

  function Supports(s: Signal): seq<Id> { if s.detail.Rationale? then s.detail.supports else [] }

  /** A reason as the group's record holds it, if it holds it. */
  function ShareReason(g: Group): Signal -> seq<Signal> {
    (reason: Signal) =>
      if IsProject(g) then
        if Supports(reason) != [] && Filter(InGroup(g), Supports(reason)) == Supports(reason) then [Unquoted(g)(reason)] else []
      else if Supports(reason) == [] then
        if g.projects == [] || g.unsupported == Some(true) then [reason] else []
      else
        var supports := Filter(InGroup(g), Supports(reason));
        if supports == [] then [] else [reason.(detail := Rationale(supports))]
  }

  function ShareItems(g: Group, signals: seq<Signal>): seq<Signal> { Map(Unquoted(g), Filter(Named(g), signals)) }

  function Share(b: Brief, g: Group): Brief {
    b.(decisions := ShareItems(g, b.decisions), actions := ShareItems(g, b.actions),
       rationales := FlatMap(ShareReason(g), b.rationales))
  }

  /**
   * approvalDecisionSubsetSnapshotV2, of the brief: the proposal is validated
   * before and the subset after, which then never refuses.
   */
  method Subset(b: Brief, g: Group) returns (r: Option<Brief>)
    ensures r.Some? <==> IsBrief(b) && IsGroupOf(g, b)
    ensures r.Some? ==> r.value == Share(b, g) && IsBrief(r.value)
  {
    var ok := CheckBrief(b);
    if !ok || !IsGroupOf(g, b) { return None; }
    var share := Share(b, g);
    ShareIsBrief(b, g);
    ok := CheckBrief(share);
    return if ok then Some(share) else None;
  }

  // ---------------------------------------------------------------- items

  lemma {:induction false} ShareItemsMembers(g: Group, signals: seq<Signal>)
    ensures forall x :: x in ShareItems(g, signals) <==> exists s :: s in signals && Named(g)(s) && x == Unquoted(g)(s)
    ensures Ids(ShareItems(g, signals)) == Filter(InGroup(g), Ids(signals))
  {
    if signals != [] {
      ShareItemsMembers(g, signals[1..]);
      assert signals == [signals[0]] + signals[1..];
      assert Ids(signals)[1..] == Ids(signals[1..]);
      assert ShareItems(g, signals)
          == (if Named(g)(signals[0]) then [Unquoted(g)(signals[0])] else []) + ShareItems(g, signals[1..]);
    }
  }

  lemma UnquotedSignal(g: Group, s: Signal, meeting: string)
    requires IsSignal(s, meeting)
    ensures IsSignal(Unquoted(g)(s), meeting)
  {
    if IsProject(g) {
      var e := Map(WithoutQuote(), s.evidence);
      forall i | 0 <= i < |e| ensures IsSpan(e[i], meeting) { assert IsSpan(s.evidence[i], meeting); }
    }
  }

  lemma FilterInGroup(g: Group, ids: seq<Id>)
    ensures forall x :: x in Filter(InGroup(g), ids) <==> x in ids && x in g.signals
    ensures |Filter(InGroup(g), ids)| <= |ids|
  {
    FilterMembers(InGroup(g), ids);
  }

  lemma {:induction false} FilterDistinctIds(p: Id -> bool, ids: seq<Id>)
    requires Distinct(ids)
    ensures Distinct(Filter(p, ids))
  {
    if ids != [] {
      assert ids == [ids[0]] + ids[1..];
      DistinctParts([ids[0]], ids[1..]);
      FilterDistinctIds(p, ids[1..]);
      FilterMembers(p, ids[1..]);
      if p(ids[0]) { DistinctConcat([ids[0]], Filter(p, ids[1..])); }
    }
  }

  // ---------------------------------------------------------------- reasons

  /** Whether a group's record holds a reason, and as what. */
  predicate HoldsReason(g: Group, reason: Signal) { ShareReason(g)(reason) != [] }

  lemma SharedReason(g: Group, reason: Signal, meeting: string)
    requires IsSignal(reason, meeting) && reason.detail.Rationale? && HoldsReason(g, reason)
    ensures ShareReason(g)(reason) == [ShareReason(g)(reason)[0]]
    ensures var r := ShareReason(g)(reason)[0];
            r.id == reason.id && IsSignal(r, meeting) && r.detail.Rationale?
    ensures var r := ShareReason(g)(reason)[0];
            forall i :: 0 <= i < |r.detail.supports| ==> r.detail.supports[i] in g.signals && r.detail.supports[i] in Supports(reason)
  {
    var r := ShareReason(g)(reason)[0];
    UnquotedSignal(g, reason, meeting);
    FilterInGroup(g, Supports(reason));
    forall i | 0 <= i < |r.detail.supports|
      ensures r.detail.supports[i] in g.signals && r.detail.supports[i] in Supports(reason)
    {
      assert r.detail.supports[i] in r.detail.supports;
    }
    if !IsProject(g) && Supports(reason) != [] {
      forall i | 0 <= i < |r.detail.supports| ensures r.detail.supports[i] != [] {
        assert r.detail.supports[i] in Supports(reason);
      }
    }
  }

  lemma {:induction false} SharedReasons(g: Group, reasons: seq<Signal>, meeting: string)
    requires IsCollection(reasons, meeting, IsRationale())
    ensures IsCollection(FlatMap(ShareReason(g), reasons), meeting, IsRationale())
    ensures forall r :: r in FlatMap(ShareReason(g), reasons) ==>
                          exists s :: s in reasons && HoldsReason(g, s) && ShareReason(g)(s) == [r] && r.id == s.id
  {
    if reasons != [] {
      var tail := FlatMap(ShareReason(g), reasons[1..]);
      SharedReasons(g, reasons[1..], meeting);
      assert reasons == [reasons[0]] + reasons[1..];
      if HoldsReason(g, reasons[0]) {
        SharedReason(g, reasons[0], meeting);
        var first := ShareReason(g)(reasons[0])[0];
        assert FlatMap(ShareReason(g), reasons) == [first] + tail;
        OneMore(first, tail, meeting);
      }
    }
  }

  lemma OneMore(first: Signal, tail: seq<Signal>, meeting: string)
    requires IsSignal(first, meeting) && first.detail.Rationale? && IsCollection(tail, meeting, IsRationale())
    ensures IsCollection([first] + tail, meeting, IsRationale())
  {
  }

  lemma {:induction false} SharedReasonIds(g: Group, reasons: seq<Signal>, meeting: string)
    requires IsCollection(reasons, meeting, IsRationale()) && Distinct(Ids(reasons))
    ensures Distinct(Ids(FlatMap(ShareReason(g), reasons)))
    ensures forall x :: x in Ids(FlatMap(ShareReason(g), reasons)) ==> x in Ids(reasons)
  {
    if reasons != [] {
      var tail := FlatMap(ShareReason(g), reasons[1..]);
      assert reasons == [reasons[0]] + reasons[1..];
      IdsConcat([reasons[0]], reasons[1..]);
      assert Ids([reasons[0]]) == [reasons[0].id];
      DistinctParts([reasons[0].id], Ids(reasons[1..]));
      SharedReasonIds(g, reasons[1..], meeting);
      if HoldsReason(g, reasons[0]) {
        SharedReason(g, reasons[0], meeting);
        var first := ShareReason(g)(reasons[0]);
        IdsConcat(first, tail);
        assert Ids(first) == [reasons[0].id];
        DistinctConcat([reasons[0].id], Ids(tail));
      } else {
        assert FlatMap(ShareReason(g), reasons) == tail;
      }
    }
  }

  // ---------------------------------------------------------------- the subset is a brief

  lemma ItemsAreCollection(g: Group, signals: seq<Signal>, meeting: string, kind: Detail -> bool)
    requires IsCollection(signals, meeting, kind)
    ensures IsCollection(ShareItems(g, signals), meeting, kind)
  {
    var share := ShareItems(g, signals);
    ShareItemsMembers(g, signals);
    forall i | 0 <= i < |share| ensures IsSignal(share[i], meeting) && kind(share[i].detail) {
      assert share[i] in share;
      var s :| s in signals && Named(g)(s) && share[i] == Unquoted(g)(s);
      UnquotedSignal(g, s, meeting);
    }
  }

  /** Parts of three disjoint collections are disjoint. */
  lemma PartsDistinct<T>(a: seq<T>, b: seq<T>, c: seq<T>, x: seq<T>, y: seq<T>, z: seq<T>)
    requires Distinct(a + b + c) && Distinct(x) && Distinct(y) && Distinct(z)
    requires (forall t :: t in x ==> t in a) && (forall t :: t in y ==> t in b) && (forall t :: t in z ==> t in c)
    ensures Distinct(x + y + z)
  {
    DistinctParts(a + b, c);
    DistinctParts(a, b);
    forall t | t in x ensures t !in y { NotShared(a, b, t); }
    DistinctConcat(x, y);
    forall t | t in x + y ensures t !in z {
      assert t in a + b;
      NotShared(a + b, c, t);
    }
    DistinctConcat(x + y, z);
  }

  lemma NotShared<T>(a: seq<T>, b: seq<T>, t: T)
    requires t in a && forall i, j :: 0 <= i < |a| && 0 <= j < |b| ==> a[i] != b[j]
    ensures t !in b
  {
    var i :| 0 <= i < |a| && a[i] == t;
  }

  lemma SignalIds(b: Brief)
    ensures Ids(Signals(b)) == Ids(b.decisions) + Ids(b.actions) + Ids(b.rationales)
    ensures Items(b) == Ids(b.decisions) + Ids(b.actions)
  {
    IdsConcat(b.decisions, b.actions);
    IdsConcat(b.decisions + b.actions, b.rationales);
  }

  lemma ShareIdsDistinct(b: Brief, g: Group)
    requires IsBrief(b)
    ensures Distinct(Ids(Signals(Share(b, g))))
  {
    var share := Share(b, g);
    SignalIds(b);
    SignalIds(share);
    DistinctParts(Ids(b.decisions) + Ids(b.actions), Ids(b.rationales));
    DistinctParts(Ids(b.decisions), Ids(b.actions));
    ShareItemsMembers(g, b.decisions);
    ShareItemsMembers(g, b.actions);
    FilterDistinctIds(InGroup(g), Ids(b.decisions));
    FilterDistinctIds(InGroup(g), Ids(b.actions));
    FilterInGroup(g, Ids(b.decisions));
    FilterInGroup(g, Ids(b.actions));
    SharedReasonIds(g, b.rationales, b.meeting);
    PartsDistinct(Ids(b.decisions), Ids(b.actions), Ids(b.rationales),
                  Ids(share.decisions), Ids(share.actions), Ids(share.rationales));
  }

  /** The record's items are exactly the group's, in the order of the brief. */
  lemma ShareHasItems(b: Brief, g: Group)
    requires IsGroupOf(g, b)
    ensures Items(Share(b, g)) == Filter(InGroup(g), Items(b))
    ensures forall id :: id in Items(Share(b, g)) <==> id in g.signals
  {
    var share := Share(b, g);
    SignalIds(b);
    SignalIds(share);
    ShareItemsMembers(g, b.decisions);
    ShareItemsMembers(g, b.actions);
    FilterConcat(InGroup(g), Ids(b.decisions), Ids(b.actions));
    FilterInGroup(g, Items(b));
    forall id ensures id in Items(share) <==> id in g.signals {
      if id in g.signals {
        var i :| 0 <= i < |g.signals| && g.signals[i] == id;
        assert g.signals[i] in Items(b);
      }
    }
  }

  /** The reason of the brief that a reason of the record comes from. */
  lemma ReasonFrom(b: Brief, g: Group, r: Signal) returns (k: nat)
    requires IsCollection(b.rationales, b.meeting, IsRationale()) && r in Share(b, g).rationales
    ensures k < |b.rationales| && ShareReason(g)(b.rationales[k]) == [r] && r.id == b.rationales[k].id
    ensures IsSignal(b.rationales[k], b.meeting) && b.rationales[k].detail.Rationale?
  {
    SharedReasons(g, b.rationales, b.meeting);
    var s :| s in b.rationales && HoldsReason(g, s) && ShareReason(g)(s) == [r] && r.id == s.id;
    k :| 0 <= k < |b.rationales| && b.rationales[k] == s;
    assert IsRationale()(b.rationales[k].detail);
  }

  lemma LinksKept(s: Signal, r: Signal, ids: seq<Id>, kept: seq<Id>, group: seq<Id>)
    requires s.detail.Rationale? && r.detail.Rationale? && r.id == s.id && LinksWithin(s, ids)
    requires forall i :: 0 <= i < |r.detail.supports| ==> r.detail.supports[i] in group && r.detail.supports[i] in s.detail.supports
    requires forall id :: id in group ==> id in kept
    ensures LinksWithin(r, kept)
  {
    forall i | 0 <= i < |r.detail.supports| ensures r.detail.supports[i] != r.id && r.detail.supports[i] in kept {
      var j :| 0 <= j < |s.detail.supports| && s.detail.supports[j] == r.detail.supports[i];
    }
  }

  lemma ReasonLinks(b: Brief, g: Group, r: Signal)
    requires IsBrief(b) && IsGroupOf(g, b) && r in Share(b, g).rationales
    ensures LinksWithin(r, Ids(Signals(Share(b, g))))
  {
    var k := ReasonFrom(b, g, r);
    var s := b.rationales[k];
    SharedReason(g, s, b.meeting);
    RationaleAt(b, k);
    KeptIds(b, g);
    LinksKept(s, r, Ids(Signals(b)), Ids(Signals(Share(b, g))), g.signals);
  }

  lemma KeptIds(b: Brief, g: Group)
    requires IsGroupOf(g, b)
    ensures forall id :: id in g.signals ==> id in Ids(Signals(Share(b, g)))
  {
    ShareHasItems(b, g);
    SignalIds(Share(b, g));
    forall id | id in g.signals ensures id in Ids(Signals(Share(b, g))) { assert id in Items(Share(b, g)); }
  }

  lemma RationaleAt(b: Brief, k: nat)
    requires IsBrief(b) && k < |b.rationales|
    ensures LinksWithin(b.rationales[k], Ids(Signals(b)))
  {
    assert Signals(b)[|b.decisions| + |b.actions| + k] == b.rationales[k];
  }

  lemma ShareLinks(b: Brief, g: Group)
    requires IsBrief(b) && IsGroupOf(g, b)
    ensures forall i :: 0 <= i < |Signals(Share(b, g))| ==> LinksWithin(Signals(Share(b, g))[i], Ids(Signals(Share(b, g))))
  {
    var share := Share(b, g);
    var items := |share.decisions| + |share.actions|;
    ItemsAreCollection(g, b.decisions, b.meeting, IsDecision());
    ItemsAreCollection(g, b.actions, b.meeting, IsAction());
    forall i | 0 <= i < |Signals(share)| ensures LinksWithin(Signals(share)[i], Ids(Signals(share))) {
      if i < |share.decisions| {
        assert IsDecision()(share.decisions[i].detail);
      } else if i < items {
        assert IsAction()(share.actions[i - |share.decisions|].detail);
      } else {
        ReasonLinks(b, g, share.rationales[i - items]);
      }
    }
  }

  /** Whatever the destination, its part of a valid brief is again a valid brief. */
  lemma ShareIsBrief(b: Brief, g: Group)
    requires IsBrief(b) && IsGroupOf(g, b)
    ensures IsBrief(Share(b, g))
  {
    ItemsAreCollection(g, b.decisions, b.meeting, IsDecision());
    ItemsAreCollection(g, b.actions, b.meeting, IsAction());
    SharedReasons(g, b.rationales, b.meeting);
    ShareIdsDistinct(b, g);
    ShareLinks(b, g);
  }

  // ---------------------------------------------------------------- taking the subset again

  lemma UnquotedTwice(g: Group, s: Signal)
    ensures Unquoted(g)(Unquoted(g)(s)) == Unquoted(g)(s)
  {
    if IsProject(g) {
      var once := Map(WithoutQuote(), s.evidence);
      assert Map(WithoutQuote(), once) == once;
    }
  }

  lemma {:induction false} ItemsTwice(g: Group, signals: seq<Signal>)
    ensures ShareItems(g, ShareItems(g, signals)) == ShareItems(g, signals)
  {
    var share := ShareItems(g, signals);
    ShareItemsMembers(g, signals);
    forall s | s in share ensures Named(g)(s) && Unquoted(g)(s) == s {
      var t :| t in signals && Named(g)(t) && s == Unquoted(g)(t);
      UnquotedTwice(g, t);
    }
    FilterAll(Named(g), share);
  }

  lemma ReasonTwice(g: Group, s: Signal, r: Signal)
    requires s.detail.Rationale? && ShareReason(g)(s) == [r]
    ensures ShareReason(g)(r) == [r]
  {
    if IsProject(g) {
      UnquotedTwice(g, s);
      assert r == Unquoted(g)(s) && Supports(r) == Supports(s);
    } else if Supports(s) != [] {
      FilterTwice(InGroup(g), Supports(s));
      assert r == s.(detail := Rationale(Filter(InGroup(g), Supports(s))));
      assert r.(detail := Rationale(Supports(r))) == r;
    }
  }

  lemma {:induction false} FlatMapSelf(f: Signal -> seq<Signal>, s: seq<Signal>)
    requires forall x :: x in s ==> f(x) == [x]
    ensures FlatMap(f, s) == s
  {
    if s != [] { FlatMapSelf(f, s[1..]); }
  }

  /** Subsetting twice is subsetting once: a record's brief is its own subset. */
  lemma ShareTwice(b: Brief, g: Group)
    requires IsBrief(b) && IsGroupOf(g, b)
    ensures IsGroupOf(g, Share(b, g)) && Share(Share(b, g), g) == Share(b, g)
  {
    var share := Share(b, g);
    ShareHasItems(b, g);
    ItemsTwice(g, b.decisions);
    ItemsTwice(g, b.actions);
    forall r | r in share.rationales ensures ShareReason(g)(r) == [r] {
      var k := ReasonFrom(b, g, r);
      ReasonTwice(g, b.rationales[k], r);
    }
    FlatMapSelf(ShareReason(g), share.rationales);
  }

  // ---------------------------------------------------------------- quotes

  predicate NoQuote(s: Signal) { forall i :: 0 <= i < |s.evidence| ==> s.evidence[i].quote.None? }

  lemma UnquotedHasNoQuote(g: Group, s: Signal)
    requires IsProject(g)
    ensures NoQuote(Unquoted(g)(s))
  {
  }

  lemma ItemsHaveNoQuote(g: Group, signals: seq<Signal>)
    requires IsProject(g)
    ensures forall s :: s in ShareItems(g, signals) ==> NoQuote(s)
  {
    ShareItemsMembers(g, signals);
    forall s | s in ShareItems(g, signals) ensures NoQuote(s) {
      var t :| t in signals && Named(g)(t) && s == Unquoted(g)(t);
      UnquotedHasNoQuote(g, t);
    }
  }

  lemma ReasonHasNoQuote(g: Group, s: Signal, r: Signal)
    requires IsProject(g) && ShareReason(g)(s) == [r]
    ensures NoQuote(r)
  {
    UnquotedHasNoQuote(g, s);
  }

  /** A record its projects read quotes nothing. */
  lemma ProjectsReadNoQuote(b: Brief, g: Group)
    requires IsBrief(b) && IsProject(g)
    ensures forall s :: s in Signals(Share(b, g)) ==> NoQuote(s)
  {
    ItemsHaveNoQuote(g, b.decisions);
    ItemsHaveNoQuote(g, b.actions);
    forall r | r in Share(b, g).rationales ensures NoQuote(r) {
      var k := ReasonFrom(b, g, r);
      ReasonHasNoQuote(g, b.rationales[k], r);
    }
  }
}
