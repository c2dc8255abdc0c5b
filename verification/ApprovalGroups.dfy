/** The destinations of a decision: its routes grouped by project set, shared or private. */
module ApprovalGroups {
  import opened Wrappers
  import opened Sequences
  import opened ApprovalBrief
  import opened ApprovalSubset

  /** Where one item goes: no projects named at all when it is dropped, none in the list for Only me. */
  datatype Route = Route(signal: Id, projects: Option<seq<Id>>, private: Option<bool>)

  datatype Destination = Destination(private: bool, projects: seq<Id>)

  /** A route keeps an item private only as true, beside a project. */
  predicate IsRoute(r: Route) {
    r.private.Some? ==> r.private == Some(true) && r.projects.Some? && r.projects.value != []
  }

  function DestinationOf(r: Route): Destination
    requires r.projects.Some?
  {
    Destination(r.private == Some(true), r.projects.value)
  }

  // ---------------------------------------------------------------- specification

  function To(d: Destination): Route -> bool { (r: Route) => r.projects.Some? && DestinationOf(r) == d }

  function SignalOf(): Route -> Id { (r: Route) => r.signal }

  /** The items routed to `d`, in the order of the routes. */
  function SignalsTo(routes: seq<Route>, d: Destination): seq<Id> { Map(SignalOf(), Filter(To(d), routes)) }

  /** The destinations, in the order of their first items. */
  function Destinations(routes: seq<Route>): (ds: seq<Destination>)
    decreases |routes|
  {
    if routes == [] then []
    else
      var before, last := Destinations(routes[..|routes| - 1]), routes[|routes| - 1];
      if last.projects.Some? && DestinationOf(last) !in before then before + [DestinationOf(last)] else before
  }

  const ONLY_ME := Destination(false, [])

  function FirstPrivate(ds: seq<Destination>): Option<Destination> {
    if ds == [] then None else if ds[0].private then Some(ds[0]) else FirstPrivate(ds[1..])
  }

  /** The destination that takes the reasons that support nothing, when nothing is kept for Only me. */
  function Loose(ds: seq<Destination>): Option<Destination> { if ONLY_ME in ds then None else FirstPrivate(ds) }

  function GroupTo(routes: seq<Route>): Destination -> Group {
    (d: Destination) =>
      Group(d.projects, if d.private then Some(true) else None,
            if Loose(Destinations(routes)) == Some(d) then Some(true) else None, SignalsTo(routes, d))
  }

  function Groups(routes: seq<Route>): seq<Group> { Map(GroupTo(routes), Destinations(routes)) }

  // ---------------------------------------------------------------- the grouping

  lemma DestinationsStep(routes: seq<Route>, i: nat)
    requires i < |routes|
    ensures var r, before := routes[i], Destinations(routes[..i]);
            Destinations(routes[..i + 1])
            == if r.projects.Some? && DestinationOf(r) !in before then before + [DestinationOf(r)] else before
  {
    assert routes[..i + 1][..i] == routes[..i];
  }

  lemma SignalsStep(routes: seq<Route>, i: nat, d: Destination)
    requires i < |routes|
    ensures SignalsTo(routes[..i + 1], d)
         == if To(d)(routes[i]) then SignalsTo(routes[..i], d) + [routes[i].signal] else SignalsTo(routes[..i], d)
  {
    PrefixGrows(routes, i);
    FilterConcat(To(d), routes[..i], [routes[i]]);
    FilterOne(To(d), routes[i]);
    MapConcat(SignalOf(), Filter(To(d), routes[..i]), Filter(To(d), [routes[i]]));
  }

  lemma NoSignals(routes: seq<Route>, d: Destination)
    requires d !in Destinations(routes)
    ensures SignalsTo(routes, d) == []
  {
    if exists r :: r in routes && To(d)(r) {
      var r :| r in routes && To(d)(r);
      DestinationListed(routes, r);
    } else {
      FilterNone(To(d), routes);
    }
  }

  lemma {:induction false} DestinationListed(routes: seq<Route>, r: Route)
    requires r in routes && r.projects.Some?
    ensures DestinationOf(r) in Destinations(routes)
    decreases |routes|
  {
    var front := routes[..|routes| - 1];
    assert routes == front + [routes[|routes| - 1]];
    if r in front { DestinationListed(front, r); }
  }

  /** The insertion-ordered map from destination to items, after `routes`. */
  ghost predicate Collected(routes: seq<Route>, order: seq<Destination>, signals: map<Destination, seq<Id>>) {
    order == Destinations(routes)
    && (forall d :: d in signals <==> d in order)
    && forall d :: d in signals ==> signals[d] == SignalsTo(routes, d)
  }

  function Added(signals: map<Destination, seq<Id>>, d: Destination, id: Id): map<Destination, seq<Id>> {
    signals[d := (if d in signals then signals[d] else []) + [id]]
  }

  lemma CollectKept(routes: seq<Route>, i: nat, order: seq<Destination>, signals: map<Destination, seq<Id>>)
    requires i < |routes| && routes[i].projects.Some? && Collected(routes[..i], order, signals)
    ensures var d := DestinationOf(routes[i]);
            Collected(routes[..i + 1], if d in signals then order else order + [d], Added(signals, d, routes[i].signal))
  {
    var key := DestinationOf(routes[i]);
    var more := Added(signals, key, routes[i].signal);
    DestinationsStep(routes, i);
    forall d | d in more ensures more[d] == SignalsTo(routes[..i + 1], d) {
      SignalsStep(routes, i, d);
      if d == key && d !in signals { NoSignals(routes[..i], d); }
    }
  }

  lemma CollectDropped(routes: seq<Route>, i: nat, order: seq<Destination>, signals: map<Destination, seq<Id>>)
    requires i < |routes| && routes[i].projects.None? && Collected(routes[..i], order, signals)
    ensures Collected(routes[..i + 1], order, signals)
  {
    DestinationsStep(routes, i);
    forall d | d in signals ensures signals[d] == SignalsTo(routes[..i + 1], d) { SignalsStep(routes, i, d); }
  }

  method Collect(routes: seq<Route>) returns (ok: bool, order: seq<Destination>, signals: map<Destination, seq<Id>>)
    ensures ok <==> forall i :: 0 <= i < |routes| ==> IsRoute(routes[i])
    ensures ok ==> Collected(routes, order, signals)
  {
    order, signals := [], map[];
    for i := 0 to |routes|
      invariant forall k :: 0 <= k < i ==> IsRoute(routes[k])
      invariant Collected(routes[..i], order, signals)
    {
      var route := routes[i];
      if !IsRoute(route) { return false, order, signals; }
      if route.projects.None? {
        CollectDropped(routes, i, order, signals);
        continue;
      }
      CollectKept(routes, i, order, signals);
      var key := DestinationOf(route);
      if key !in signals { order := order + [key]; }
      signals := Added(signals, key, route.signal);
    }
    assert routes[..|routes|] == routes;
    return true, order, signals;
  }

  method FindLoose(order: seq<Destination>) returns (loose: Option<Destination>)
    ensures loose == Loose(order)
  {
    if ONLY_ME in order { return None; }
    for k := 0 to |order|
      invariant FirstPrivate(order) == FirstPrivate(order[k..])
    {
      if order[k].private { return Some(order[k]); }
      assert order[k..][1..] == order[k + 1..];
    }
    return None;
  }

  /** approvalDecisionGroupsV1: route by route into a map from destination to items, then a group for each. */
  method GroupRoutes(routes: seq<Route>) returns (groups: Option<seq<Group>>)
    ensures groups == if forall i :: 0 <= i < |routes| ==> IsRoute(routes[i]) then Some(Groups(routes)) else None
  {
    var ok, order, signals := Collect(routes);
    if !ok { return None; }
    var loose := FindLoose(order);
    var all: seq<Group> := [];
    for k := 0 to |order|
      invariant |all| == k && forall j :: 0 <= j < k ==> all[j] == GroupTo(routes)(order[j])
    {
      var d := order[k];
      assert d in order;
      all := all + [Group(d.projects, if d.private then Some(true) else None, if loose == Some(d) then Some(true) else None, signals[d])];
    }
    assert all == Groups(routes);
    return Some(all);
  }

  // ---------------------------------------------------------------- partition

  ghost predicate AreRoutes(routes: seq<Route>) {
    (forall i :: 0 <= i < |routes| ==> IsRoute(routes[i])) && Distinct(Map(SignalOf(), routes))
  }

  lemma {:induction false} DestinationsDistinct(routes: seq<Route>)
    ensures Distinct(Destinations(routes))
    ensures forall d :: d in Destinations(routes) ==> exists r :: r in routes && To(d)(r)
    decreases |routes|
  {
    if routes != [] {
      var front, last := routes[..|routes| - 1], routes[|routes| - 1];
      DestinationsDistinct(front);
      assert routes == front + [last];
      if last.projects.Some? && DestinationOf(last) !in Destinations(front) {
        DistinctConcat(Destinations(front), [DestinationOf(last)]);
      }
      forall d | d in Destinations(routes) ensures exists r :: r in routes && To(d)(r) {
        if d in Destinations(front) {
          var r :| r in front && To(d)(r);
          assert r in routes;
        } else {
          assert To(d)(last);
        }
      }
    }
  }

  lemma SignalsToMembers(routes: seq<Route>, d: Destination, id: Id)
    ensures id in SignalsTo(routes, d) <==> exists r :: r in routes && To(d)(r) && r.signal == id
  {
    var kept := Filter(To(d), routes);
    FilterMembers(To(d), routes);
    if id in SignalsTo(routes, d) {
      var i :| 0 <= i < |kept| && SignalsTo(routes, d)[i] == id;
      assert kept[i] in routes && To(d)(kept[i]) && kept[i].signal == id;
    }
    if exists r :: r in routes && To(d)(r) && r.signal == id {
      var r :| r in routes && To(d)(r) && r.signal == id;
      var i :| 0 <= i < |kept| && kept[i] == r;
      assert SignalsTo(routes, d)[i] == id;
    }
  }

  lemma SameRoute(routes: seq<Route>, r: Route, s: Route)
    requires Distinct(Map(SignalOf(), routes)) && r in routes && s in routes && r.signal == s.signal
    ensures r == s
  {
    var i :| 0 <= i < |routes| && routes[i] == r;
    var j :| 0 <= j < |routes| && routes[j] == s;
    DistinctAt(Map(SignalOf(), routes), i, j);
  }

  /** No item goes to two destinations. */
  lemma DestinationsDisjoint(routes: seq<Route>, d: Destination, e: Destination, id: Id)
    requires AreRoutes(routes) && id in SignalsTo(routes, d) && id in SignalsTo(routes, e)
    ensures d == e
  {
    SignalsToMembers(routes, d, id);
    SignalsToMembers(routes, e, id);
    var r :| r in routes && To(d)(r) && r.signal == id;
    var s :| s in routes && To(e)(s) && s.signal == id;
    SameRoute(routes, r, s);
  }

  /** Every kept item is in the group of its destination, and in no other. */
  lemma RoutedOnce(routes: seq<Route>, r: Route) returns (k: nat)
    requires AreRoutes(routes) && r in routes && r.projects.Some?
    ensures k < |Groups(routes)| && Groups(routes)[k].projects == r.projects.value
    ensures forall j :: 0 <= j < |Groups(routes)| ==> (r.signal in Groups(routes)[j].signals <==> j == k)
  {
    var ds, d := Destinations(routes), DestinationOf(r);
    DestinationListed(routes, r);
    DestinationsDistinct(routes);
    k :| 0 <= k < |ds| && ds[k] == d;
    SignalsToMembers(routes, d, r.signal);
    assert To(d)(r);
    forall j | 0 <= j < |ds| ensures r.signal in Groups(routes)[j].signals <==> j == k {
      if r.signal in SignalsTo(routes, ds[j]) { DestinationsDisjoint(routes, ds[j], d, r.signal); }
    }
  }

  lemma {:induction false} PrivateNamesProjects(routes: seq<Route>, d: Destination)
    requires AreRoutes(routes) && d in Destinations(routes) && d.private
    ensures d.projects != []
  {
    DestinationsDistinct(routes);
    var r :| r in routes && To(d)(r);
    var i :| 0 <= i < |routes| && routes[i] == r;
    assert IsRoute(routes[i]);
  }

  /** Takes the reasons that support nothing. */
  predicate TakesLoose(g: Group) { !IsProject(g) && (g.projects == [] || g.unsupported == Some(true)) }

  lemma OnlyMe(routes: seq<Route>, d: Destination)
    requires AreRoutes(routes) && d in Destinations(routes) && d.projects == []
    ensures d == ONLY_ME
  {
    if d.private { PrivateNamesProjects(routes, d); }
  }

  /** At most one group takes the reasons that support nothing. */
  lemma OneTakesLoose(routes: seq<Route>, i: nat, j: nat)
    requires AreRoutes(routes) && i < |Groups(routes)| && j < |Groups(routes)|
    requires TakesLoose(Groups(routes)[i]) && TakesLoose(Groups(routes)[j])
    ensures i == j
  {
    var ds := Destinations(routes);
    DestinationsDistinct(routes);
    LooseIs(routes, i);
    LooseIs(routes, j);
    DistinctAt(ds, i, j);
  }

  function Taker(ds: seq<Destination>): Option<Destination> { if ONLY_ME in ds then Some(ONLY_ME) else FirstPrivate(ds) }

  lemma LooseIs(routes: seq<Route>, i: nat)
    requires AreRoutes(routes) && i < |Groups(routes)|
    ensures TakesLoose(Groups(routes)[i]) <==> Taker(Destinations(routes)) == Some(Destinations(routes)[i])
  {
    var ds := Destinations(routes);
    var d := ds[i];
    assert d in ds;
    if d.projects == [] { OnlyMe(routes, d); }
    if FirstPrivate(ds) == Some(d) { FirstPrivateIs(ds, d); PrivateNamesProjects(routes, d); }
  }

  lemma {:induction false} FirstPrivateIs(ds: seq<Destination>, d: Destination)
    requires FirstPrivate(ds) == Some(d)
    ensures d.private && d in ds
  {
    if !ds[0].private { FirstPrivateIs(ds[1..], d); }
  }

  // ---------------------------------------------------------------- order

  /** Keeping what is named in a filtered list keeps the filtered list. */
  lemma {:induction false} FilterNamed(routes: seq<Route>, d: Destination, all: seq<Route>)
    requires AreRoutes(all) && forall r :: r in routes ==> r in all
    ensures Filter(InSeq(SignalsTo(all, d)), Map(SignalOf(), routes)) == SignalsTo(routes, d)
  {
    if routes != [] {
      var r := routes[0];
      assert r in all;
      FilterNamed(routes[1..], d, all);
      assert Map(SignalOf(), routes)[1..] == Map(SignalOf(), routes[1..]);
      SignalsToMembers(all, d, r.signal);
      if r.signal in SignalsTo(all, d) {
        var s :| s in all && To(d)(s) && s.signal == r.signal;
        SameRoute(all, r, s);
      }
      assert Filter(To(d), routes) == (if To(d)(r) then [r] else []) + Filter(To(d), routes[1..]);
    }
  }

  function InSeq(ids: seq<Id>): Id -> bool { (id: Id) => id in ids }

  /** A group's items stand in the order of the routes. */
  lemma GroupInOrder(routes: seq<Route>, i: nat)
    requires AreRoutes(routes) && i < |Groups(routes)|
    ensures Filter(InGroup(Groups(routes)[i]), Map(SignalOf(), routes)) == Groups(routes)[i].signals
  {
    var g := Groups(routes)[i];
    FilterNamed(routes, Destinations(routes)[i], routes);
    forall id ensures InGroup(g)(id) == InSeq(g.signals)(id) {}
    FilterSame(InGroup(g), InSeq(g.signals), Map(SignalOf(), routes));
  }

  /** Each group names items of the brief the routes are for, and is one the subset accepts. */
  lemma GroupsFit(routes: seq<Route>, b: Brief, i: nat)
    requires AreRoutes(routes) && Map(SignalOf(), routes) == Items(b) && i < |Groups(routes)|
    ensures IsGroupOf(Groups(routes)[i], b)
    ensures Items(Share(b, Groups(routes)[i])) == Groups(routes)[i].signals
  {
    var g, d := Groups(routes)[i], Destinations(routes)[i];
    GroupInOrder(routes, i);
    FilterDistinctIds(InGroup(g), Map(SignalOf(), routes));
    FilterInGroup(g, Items(b));
    DestinationsDistinct(routes);
    assert d in Destinations(routes);
    var r :| r in routes && To(d)(r);
    SignalsToMembers(routes, d, r.signal);
    assert r.signal in g.signals;
    if d.private { PrivateNamesProjects(routes, d); }
    LooseIs(routes, i);
    forall k | 0 <= k < |g.signals| ensures g.signals[k] in Items(b) { assert g.signals[k] in g.signals; }
    if g.unsupported.Some? { FirstPrivateIs(Destinations(routes), d); }
    ShareHasItems(b, g);
  }
}
