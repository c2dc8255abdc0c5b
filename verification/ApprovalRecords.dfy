/** The records of one decision: what each holds, and that every one of them validates. */
module ApprovalRecords {
  import opened Wrappers
  import opened Sequences
  import opened Sorting
  import opened ApprovalBrief
  import opened ApprovalSubset
  import opened ApprovalGroups

  // ---------------------------------------------------------------- records

  datatype Policy = RestrictedReviewer | ProjectMembers

  datatype Consequence = Consequence(policy: Policy, audience: seq<Id>, association: seq<Id>)

  /** The preimage of approvalRecordIdV2; its digest is taken to be injective. */
  datatype RecordId = RecordId(proposal: Id, projects: seq<Id>, private: bool)

  datatype Owner = Owner(signal: Id, owner: string)

  datatype Record = Record(id: RecordId, proposal: Id, routes: seq<Id>, consequence: Consequence, owners: seq<Owner>, brief: Brief)

  const MAXIMUM_PROJECTS := 20
  const MAXIMUM_OWNERS := 40

  /** The text rules of a decision: which project ids, signal ids and owner texts are well-formed. */
  datatype Rules = Rules(project: Id -> bool, signal: Id -> bool, owner: string -> bool)

  predicate AreProjects(rules: Rules, projects: seq<Id>) {
    |projects| <= MAXIMUM_PROJECTS
    && (forall i :: 0 <= i < |projects| ==> rules.project(projects[i]))
    && forall i :: 0 < i < |projects| ==> Less(projects[i - 1], projects[i])
  }

  /** consequenceOf: projects are audience and association; the restricted reviewer has no audience. */
  predicate IsConsequence(rules: Rules, c: Consequence) {
    AreProjects(rules, c.audience) && AreProjects(rules, c.association)
    && (c.policy == ProjectMembers ==> c.audience != [] && c.association != [] && c.audience == c.association)
    && (c.policy == RestrictedReviewer ==> c.audience == [])
  }

  predicate IsPrivate(c: Consequence) { c.policy == RestrictedReviewer && c.association != [] }

  // ---------------------------------------------------------------- owners

  /** `a` is what is left of `b` after leaving some elements out. */
  predicate Subsequence(a: seq<Id>, b: seq<Id>) {
    a == [] || (b != [] && if a[0] == b[0] then Subsequence(a[1..], b[1..]) else Subsequence(a, b[1..]))
  }

  function OwnerOf(): Owner -> Id { (o: Owner) => o.signal }

  /** findIndex, or -1. */
  function IndexOf(ids: seq<Id>, id: Id): (n: int)
    ensures -1 <= n < |ids| && (n >= 0 ==> ids[n] == id)
    ensures forall i :: 0 <= i < (if n < 0 then |ids| else n) ==> ids[i] != id
  {
    if ids == [] then -1
    else if ids[0] == id then 0
    else
      var rest := IndexOf(ids[1..], id);
      if rest < 0 then -1 else rest + 1
  }

  lemma {:induction false} SkipTo(a: seq<Id>, b: seq<Id>, k: nat)
    requires a != [] && k < |b| && b[k] == a[0] && forall i :: 0 <= i < k ==> b[i] != a[0]
    ensures Subsequence(a, b) <==> Subsequence(a[1..], b[k + 1..])
  {
    if k > 0 {
      SkipTo(a, b[1..], k - 1);
      assert b[1..][k..] == b[k + 1..];
    }
  }

  lemma {:induction false} Absent(a: seq<Id>, b: seq<Id>)
    requires a != [] && a[0] !in b
    ensures !Subsequence(a, b)
  {
    if b != [] {
      assert b[0] in b;
      Absent(a, b[1..]);
    }
  }

  lemma OwnerFound(a: seq<Id>, ids: seq<Id>, start: nat, at: nat)
    requires a != [] && start <= at < |ids| && ids[at] == a[0] && forall i :: 0 <= i < at ==> ids[i] != a[0]
    ensures Subsequence(a, ids[start..]) <==> Subsequence(a[1..], ids[at + 1..])
  {
    var rest, k := ids[start..], at - start;
    assert rest[k] == ids[at];
    SkipTo(a, rest, k);
    assert rest[k + 1..] == ids[at + 1..];
  }

  lemma OwnerMissing(a: seq<Id>, ids: seq<Id>, start: nat)
    requires a != [] && start <= |ids| && forall i :: start <= i < |ids| ==> ids[i] != a[0]
    ensures !Subsequence(a, ids[start..])
  {
    Absent(a, ids[start..]);
  }

  lemma OwnersStep(a: seq<Id>, ids: seq<Id>, prior: int, at: int)
    requires a != [] && Distinct(ids) && -1 <= prior < |ids| && at == IndexOf(ids, a[0])
    ensures at <= prior ==> !Subsequence(a, ids[prior + 1..])
    ensures at > prior ==> (Subsequence(a, ids[prior + 1..]) <==> Subsequence(a[1..], ids[at + 1..]))
  {
    if at > prior {
      OwnerFound(a, ids, prior + 1, at);
    } else {
      OwnerMissing(a, ids, prior + 1);
    }
  }

  /** The owners name actions of the record once each, in the order of the brief. */
  method CheckOwners(rules: Rules, owners: seq<Owner>, actions: seq<Id>) returns (ok: bool)
    requires Distinct(actions)
    ensures ok <==> AreOwners(rules, owners, actions)
  {
    if |owners| > MAXIMUM_OWNERS { return false; }
    var prior := -1;
    ghost var named := Map(OwnerOf(), owners);
    assert actions[prior + 1..] == actions && named[0..] == named;
    for index := 0 to |owners|
      invariant -1 <= prior < |actions| || (prior == -1 && actions == [])
      invariant forall i :: 0 <= i < index ==> rules.signal(owners[i].signal) && rules.owner(owners[i].owner)
      invariant Subsequence(named, actions) <==> Subsequence(named[index..], actions[prior + 1..])
    {
      var entry := owners[index];
      if !rules.signal(entry.signal) || !rules.owner(entry.owner) { return false; }
      var at := IndexOf(actions, entry.signal);
      assert named[index..][0] == entry.signal && named[index..][1..] == named[index + 1..];
      if actions == [] {
        Absent(named[index..], []);
      } else {
        OwnersStep(named[index..], actions, prior, at);
      }
      if at <= prior { return false; }
      prior := at;
    }
    assert named[|owners|..] == [];
    return true;
  }

  ghost predicate AreOwners(rules: Rules, owners: seq<Owner>, actions: seq<Id>) {
    |owners| <= MAXIMUM_OWNERS
    && (forall i :: 0 <= i < |owners| ==> rules.signal(owners[i].signal) && rules.owner(owners[i].owner))
    && Subsequence(Map(OwnerOf(), owners), actions)
  }

  lemma FilterStep(p: Id -> bool, s: seq<Id>)
    requires s != []
    ensures p(s[0]) ==> Filter(p, s) == [s[0]] + Filter(p, s[1..]) && Filter(p, s)[1..] == Filter(p, s[1..])
    ensures !p(s[0]) ==> Filter(p, s) == Filter(p, s[1..])
  {
  }

  lemma {:induction false} SubsequenceFilter(p: Id -> bool, a: seq<Id>, b: seq<Id>)
    requires Subsequence(a, b)
    ensures Subsequence(Filter(p, a), Filter(p, b))
    decreases |b|
  {
    if a != [] {
      FilterStep(p, a);
      FilterStep(p, b);
      if a[0] == b[0] {
        SubsequenceFilter(p, a[1..], b[1..]);
      } else {
        SubsequenceFilter(p, a, b[1..]);
        if p(b[0]) { SubsequenceTail(Filter(p, a), Filter(p, b[1..]), b[0]); }
      }
    }
  }

  lemma {:induction false} SubsequenceTail(a: seq<Id>, b: seq<Id>, x: Id)
    requires Subsequence(a, b)
    ensures Subsequence(a, [x] + b)
    decreases |b|, 1
  {
    assert ([x] + b)[1..] == b;
    if a != [] && a[0] == x { SubsequenceWithout(a, b); }
  }

  lemma {:induction false} SubsequenceWithout(a: seq<Id>, b: seq<Id>)
    requires a != [] && Subsequence(a, b)
    ensures Subsequence(a[1..], b)
    decreases |b|, 0
  {
    assert b == [b[0]] + b[1..];
    if a[0] != b[0] { SubsequenceWithout(a, b[1..]); }
    SubsequenceTail(a[1..], b[1..], b[0]);
  }

  // ---------------------------------------------------------------- validation

  /** Proposed owners are cleared at the freeze: only the record's own owners are confirmed. */
  predicate Unowned(actions: seq<Signal>) {
    forall i :: 0 <= i < |actions| && actions[i].detail.Action? ==> actions[i].detail.owner.None?
  }

  /** What validateApprovalDecisionRecordInputV2 requires of a record, its digests and envelope aside. */
  ghost predicate IsRecord(rules: Rules, r: Record) {
    IsBrief(r.brief) && IsConsequence(rules, r.consequence)
    && r.id == RecordId(r.proposal, r.consequence.association, IsPrivate(r.consequence))
    && |r.brief.decisions| + |r.brief.actions| > 0
    && (forall i :: 0 <= i < |r.routes| ==> rules.signal(r.routes[i])) && r.routes == Items(r.brief)
    && Unowned(r.brief.actions)
    && AreOwners(rules, r.owners, Ids(r.brief.actions))
  }

  method ValidateRecord(rules: Rules, r: Record) returns (ok: bool)
    ensures ok <==> IsRecord(rules, r)
  {
    var brief := CheckBrief(r.brief);
    if !brief || !IsConsequence(rules, r.consequence) { return false; }
    if r.id != RecordId(r.proposal, r.consequence.association, IsPrivate(r.consequence)) { return false; }
    if |r.brief.decisions| + |r.brief.actions| == 0 { return false; }
    if exists i :: 0 <= i < |r.routes| && !rules.signal(r.routes[i]) { return false; }
    if r.routes != Items(r.brief) { return false; }
    if !Unowned(r.brief.actions) { return false; }
    ActionIdsDistinct(r.brief);
    ok := CheckOwners(rules, r.owners, Ids(r.brief.actions));
  }

  lemma ActionIdsDistinct(b: Brief)
    requires IsBrief(b)
    ensures Distinct(Ids(b.actions)) && Distinct(Items(b))
  {
    SignalIds(b);
    DistinctParts(Ids(b.decisions) + Ids(b.actions), Ids(b.rationales));
    DistinctParts(Ids(b.decisions), Ids(b.actions));
  }

  // ---------------------------------------------------------------- building

  function OwnsIn(actions: seq<Id>): Owner -> bool { (o: Owner) => o.signal in actions }

  /** The record of one group, as buildApprovalDecisionRecordsV1 makes it. */
  function RecordOf(b: Brief, proposal: Id, owners: seq<Owner>): Group -> Record {
    (g: Group) =>
      var share := Share(b, g);
      var shared := IsProject(g);
      Record(RecordId(proposal, g.projects, g.private == Some(true)), proposal, g.signals,
             Consequence(if shared then ProjectMembers else RestrictedReviewer, if shared then g.projects else [], g.projects),
             Filter(OwnsIn(Ids(share.actions)), owners), share)
  }

  function Records(b: Brief, proposal: Id, routes: seq<Route>, owners: seq<Owner>): seq<Record> {
    Map(RecordOf(b, proposal, owners), Groups(routes))
  }

  /** What the approval core has checked of a decision before it is published. */
  ghost predicate IsDecided(rules: Rules, b: Brief, routes: seq<Route>, owners: seq<Owner>) {
    IsBrief(b) && AreRoutes(routes) && Map(SignalOf(), routes) == Items(b)
    && Unowned(b.actions)
    && (forall i :: 0 <= i < |routes| ==> rules.signal(routes[i].signal))
    && (forall i :: 0 <= i < |routes| && routes[i].projects.Some? ==> AreProjects(rules, routes[i].projects.value))
    && AreOwners(rules, owners, Ids(b.actions))
  }

  lemma GroupProjects(rules: Rules, routes: seq<Route>, k: nat)
    requires forall i :: 0 <= i < |routes| && routes[i].projects.Some? ==> AreProjects(rules, routes[i].projects.value)
    requires k < |Groups(routes)|
    ensures AreProjects(rules, Groups(routes)[k].projects)
  {
    var d := Destinations(routes)[k];
    DestinationsDistinct(routes);
    assert d in Destinations(routes);
    var r :| r in routes && To(d)(r);
    var i :| 0 <= i < |routes| && routes[i] == r;
    assert AreProjects(rules, routes[i].projects.value);
  }

  lemma GroupConsequence(rules: Rules, b: Brief, proposal: Id, owners: seq<Owner>, g: Group)
    requires AreProjects(rules, g.projects) && IsGroupOf(g, b)
    ensures IsConsequence(rules, RecordOf(b, proposal, owners)(g).consequence)
    ensures RecordOf(b, proposal, owners)(g).id
         == RecordId(proposal, g.projects, IsPrivate(RecordOf(b, proposal, owners)(g).consequence))
  {
  }

  lemma SharedUnowned(b: Brief, g: Group)
    requires Unowned(b.actions)
    ensures Unowned(Share(b, g).actions)
  {
    var actions := Share(b, g).actions;
    ShareItemsMembers(g, b.actions);
    forall i | 0 <= i < |actions| && actions[i].detail.Action? ensures actions[i].detail.owner.None? {
      assert actions[i] in actions;
      var s :| s in b.actions && Named(g)(s) && actions[i] == Unquoted(g)(s);
      var j :| 0 <= j < |b.actions| && b.actions[j] == s;
    }
  }

  function InIds(ids: seq<Id>): Id -> bool { (id: Id) => id in ids }

  lemma GroupOwners(rules: Rules, b: Brief, g: Group, owners: seq<Owner>)
    requires AreOwners(rules, owners, Ids(b.actions))
    ensures AreOwners(rules, Filter(OwnsIn(Ids(Share(b, g).actions)), owners), Ids(Share(b, g).actions))
  {
    var ids, actions := Ids(Share(b, g).actions), Ids(b.actions);
    ShareItemsMembers(g, b.actions);
    FilterInGroup(g, actions);
    FilterMembers(OwnsIn(ids), owners);
    FilterMap(InIds(ids), OwnsIn(ids), OwnerOf(), owners);
    SubsequenceFilter(InIds(ids), Map(OwnerOf(), owners), actions);
    FilterSame(InIds(ids), InGroup(g), actions);
    OwnersKept(rules, owners, Filter(OwnsIn(ids), owners));
  }

  lemma OwnersKept(rules: Rules, owners: seq<Owner>, kept: seq<Owner>)
    requires forall i :: 0 <= i < |owners| ==> rules.signal(owners[i].signal) && rules.owner(owners[i].owner)
    requires forall o :: o in kept ==> o in owners
    ensures forall i :: 0 <= i < |kept| ==> rules.signal(kept[i].signal) && rules.owner(kept[i].owner)
  {
    forall i | 0 <= i < |kept| ensures rules.signal(kept[i].signal) && rules.owner(kept[i].owner) {
      assert kept[i] in kept;
      var j :| 0 <= j < |owners| && owners[j] == kept[i];
    }
  }

  lemma GroupSignals(rules: Rules, routes: seq<Route>, b: Brief, g: Group)
    requires forall i :: 0 <= i < |routes| ==> rules.signal(routes[i].signal)
    requires Map(SignalOf(), routes) == Items(b) && IsGroupOf(g, b)
    ensures forall i :: 0 <= i < |g.signals| ==> rules.signal(g.signals[i])
  {
    forall id | id in Items(b) ensures rules.signal(id) { RoutedSignal(rules, routes, id); }
    assert forall i :: 0 <= i < |g.signals| ==> g.signals[i] in Items(b);
  }

  lemma RoutedSignal(rules: Rules, routes: seq<Route>, id: Id)
    requires forall i :: 0 <= i < |routes| ==> rules.signal(routes[i].signal)
    requires id in Map(SignalOf(), routes)
    ensures rules.signal(id)
  {
    var j :| 0 <= j < |routes| && Map(SignalOf(), routes)[j] == id;
    assert rules.signal(routes[j].signal);
  }

  lemma HasItem(b: Brief, g: Group)
    requires IsGroupOf(g, b)
    ensures |Share(b, g).decisions| + |Share(b, g).actions| > 0
  {
    ShareHasItems(b, g);
    assert g.signals[0] in Items(Share(b, g));
    SignalIds(Share(b, g));
  }

  /** Every record built from a checked decision validates: publishing never stops half way through its groups. */
  lemma EveryRecordValidates(rules: Rules, b: Brief, proposal: Id, routes: seq<Route>, owners: seq<Owner>, k: nat)
    requires IsDecided(rules, b, routes, owners) && k < |Groups(routes)|
    ensures IsRecord(rules, Records(b, proposal, routes, owners)[k])
  {
    var g := Groups(routes)[k];
    GroupsFit(routes, b, k);
    ShareIsBrief(b, g);
    GroupProjects(rules, routes, k);
    GroupConsequence(rules, b, proposal, owners, g);
    SharedUnowned(b, g);
    GroupOwners(rules, b, g, owners);
    GroupSignals(rules, routes, b, g);
    HasItem(b, g);
  }

  // ---------------------------------------------------------------- conservation

  /** Each kept item is in exactly one record, and each record's items stand in the order of the brief. */
  lemma ItemsConserved(rules: Rules, b: Brief, proposal: Id, routes: seq<Route>, owners: seq<Owner>, r: Route)
    returns (k: nat)
    requires IsDecided(rules, b, routes, owners) && r in routes && r.projects.Some?
    ensures k < |Groups(routes)|
    ensures forall j :: 0 <= j < |Groups(routes)| ==>
                          (r.signal in Items(Records(b, proposal, routes, owners)[j].brief) <==> j == k)
  {
    k := RoutedOnce(routes, r);
    forall j | 0 <= j < |Groups(routes)|
      ensures r.signal in Items(Records(b, proposal, routes, owners)[j].brief) <==> j == k
    {
      GroupsFit(routes, b, j);
    }
  }

  /** Records differ in their ids, so each is appended on its own. */
  lemma RecordIdsDiffer(b: Brief, proposal: Id, routes: seq<Route>, owners: seq<Owner>, i: nat, j: nat)
    requires AreRoutes(routes) && i < |Groups(routes)| && j < |Groups(routes)|
    requires Records(b, proposal, routes, owners)[i].id == Records(b, proposal, routes, owners)[j].id
    ensures i == j
  {
    DestinationsDistinct(routes);
    DistinctAt(Destinations(routes), i, j);
  }

  /** No reason is in two project records. */
  lemma ReasonInOneProject(routes: seq<Route>, reason: Signal, i: nat, j: nat)
    requires AreRoutes(routes) && i < |Groups(routes)| && j < |Groups(routes)|
    requires IsProject(Groups(routes)[i]) && HoldsReason(Groups(routes)[i], reason)
    requires IsProject(Groups(routes)[j]) && HoldsReason(Groups(routes)[j], reason)
    ensures i == j
  {
    var g, h, first := Groups(routes)[i], Groups(routes)[j], Supports(reason)[0];
    FilterInGroup(g, Supports(reason));
    FilterInGroup(h, Supports(reason));
    assert first in Supports(reason);
    DestinationsDisjoint(routes, Destinations(routes)[i], Destinations(routes)[j], first);
    DestinationsDistinct(routes);
    DistinctAt(Destinations(routes), i, j);
  }

  /** A project record holds a reason exactly when every item the reason supports is its own, and it supports one. */
  lemma ProjectReasons(g: Group, reason: Signal)
    requires IsProject(g)
    ensures HoldsReason(g, reason) <==> Supports(reason) != [] && forall id :: id in Supports(reason) ==> id in g.signals
  {
    FilterInGroup(g, Supports(reason));
    if forall id :: id in Supports(reason) ==> id in g.signals { FilterAll(InGroup(g), Supports(reason)); }
  }

  /** A record its approver alone reads holds a reason exactly when the reason supports one of its items, or nothing and it takes such. */
  lemma PrivateReasons(g: Group, reason: Signal)
    requires !IsProject(g)
    ensures HoldsReason(g, reason) <==>
            (exists id :: id in Supports(reason) && id in g.signals) || (Supports(reason) == [] && TakesLoose(g))
  {
    FilterInGroup(g, Supports(reason));
    var kept := Filter(InGroup(g), Supports(reason));
    if kept != [] { assert kept[0] in kept; }
  }

  /** A reason that supports nothing is in at most one record of the decision. */
  lemma LooseReasonOnce(routes: seq<Route>, reason: Signal, i: nat, j: nat)
    requires AreRoutes(routes) && i < |Groups(routes)| && j < |Groups(routes)| && Supports(reason) == []
    requires HoldsReason(Groups(routes)[i], reason) && HoldsReason(Groups(routes)[j], reason)
    ensures i == j
  {
    OneTakesLoose(routes, i, j);
  }

  lemma {:induction false} FirstPrivateFound(ds: seq<Destination>, d: Destination)
    requires d in ds && d.private
    ensures FirstPrivate(ds).Some?
  {
    if !ds[0].private { FirstPrivateFound(ds[1..], d); }
  }

  /** And it is in one exactly when some record is read by the approver alone. */
  lemma LooseReasonKept(routes: seq<Route>, reason: Signal)
    requires AreRoutes(routes) && Supports(reason) == []
    ensures (exists k :: 0 <= k < |Groups(routes)| && HoldsReason(Groups(routes)[k], reason))
       <==> exists k :: 0 <= k < |Groups(routes)| && !IsProject(Groups(routes)[k])
  {
    var ds := Destinations(routes);
    if j :| 0 <= j < |Groups(routes)| && !IsProject(Groups(routes)[j]) {
      assert ds[j] in ds;
      if ds[j].private { FirstPrivateFound(ds, ds[j]); } else { OnlyMe(routes, ds[j]); }
      var taker := Taker(ds).value;
      if ONLY_ME !in ds { FirstPrivateIs(ds, taker); }
      var k :| 0 <= k < |ds| && ds[k] == taker;
      LooseIs(routes, k);
      assert HoldsReason(Groups(routes)[k], reason);
    }
  }
}
