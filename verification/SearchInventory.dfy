/** Reading without scoring: the inventory list, opening named atoms, and the record rows. */
module SearchInventory {
  import opened Wrappers
  import opened Sequences
  import opened Sorting
  import opened SearchModel
  import opened SearchFlat
  import opened SearchIndex
  import opened SearchRefinement
  import opened SearchScope

  // ---------------------------------------------------------------- list

  datatype Entry = Entry(fact: FactRow, content: ContentRow)

  function EntryAt(segment: SegmentRows, request: Request): FactRow -> seq<Entry> {
    (fact: FactRow) =>
      if fact.at.atomId !in segment.content then []
      else
        var content := segment.content[fact.at.atomId];
        if Wanted(request, content.kind, fact.at.record, fact.at.order, fact.policy) then [Entry(fact, content)] else []
  }

  function SegmentEntries(request: Request): SegmentRows -> seq<Entry> {
    (s: SegmentRows) => FlatMap(EntryAt(s, request), s.facts)
  }

  function EntryOf(k: Kernel): Atom -> Entry { (a: Atom) => Entry(FactOf(k, a), ContentOf(k, a)) }

  function EntryKey(): Entry -> Key { (e: Entry) => [-e.fact.at.position, e.fact.at.order, e.fact.at.atomId] }

  function EntryItem(): Entry -> Item { (e: Entry) => ResultItem(e.fact, e.content) }

  lemma {:induction false} FactEntries(k: Kernel, segment: SegmentRows, atoms: seq<Atom>, some: seq<Atom>, request: Request)
    requires Holding(k, segment, atoms) && forall a :: a in some ==> a in atoms
    ensures FlatMap(EntryAt(segment, request), Map(FactOfAtom(k), some))
      == Map(EntryOf(k), Filter(WantedAtom(request), some))
  {
    if some != [] {
      var facts := Map(FactOfAtom(k), some);
      assert facts[1..] == Map(FactOfAtom(k), some[1..]);
      FactEntries(k, segment, atoms, some[1..], request);
      assert some[0] in atoms;
      assert EntryAt(segment, request)(facts[0]) == if WantedAtom(request)(some[0]) then [EntryOf(k)(some[0])] else [];
      var kept := Filter(WantedAtom(request), some);
      if WantedAtom(request)(some[0]) { assert kept[1..] == Filter(WantedAtom(request), some[1..]); }
    }
  }

  lemma {:induction false} AllEntries(k: Kernel, segments: seq<SegmentRows>, groups: seq<seq<Atom>>, request: Request)
    requires Indexes(k, segments, groups)
    ensures FlatMap(SegmentEntries(request), segments) == Map(EntryOf(k), Filter(WantedAtom(request), Concat(groups)))
  {
    if groups != [] {
      AllEntries(k, segments[1..], groups[1..], request);
      FactEntries(k, segments[0], groups[0], groups[0], request);
      FilterConcat(WantedAtom(request), groups[0], Concat(groups[1..]));
      MapConcat(EntryOf(k), Filter(WantedAtom(request), groups[0]), Filter(WantedAtom(request), Concat(groups[1..])));
    }
  }

  method SegmentList(segment: SegmentRows, request: Request) returns (entries: seq<Entry>)
    ensures entries == SegmentEntries(request)(segment)
  {
    entries := [];
    for i := 0 to |segment.facts|
      invariant entries == FlatMap(EntryAt(segment, request), segment.facts[..i])
    {
      var fact := segment.facts[i];
      FlatMapStep(EntryAt(segment, request), segment.facts, i);
      if fact.at.atomId in segment.content {
        var content := segment.content[fact.at.atomId];
        if Wanted(request, content.kind, fact.at.record, fact.at.order, fact.policy) {
          entries := entries + [Entry(fact, content)];
        }
      }
    }
    assert segment.facts[..|segment.facts|] == segment.facts;
  }

  /** Listing segment by segment lists what looking at every atom lists, in the same order. */
  method ListSegments(k: Kernel, segments: seq<SegmentRows>, request: Request, limit: nat, ghost groups: seq<seq<Atom>>)
    returns (r: Result<Found, SearchError>)
    requires Indexes(k, segments, groups) && DistinctAtoms(Concat(groups))
    ensures r == if Granted(request) then Success(FlatList(Concat(groups), request, limit)) else Failure(ProjectNotGranted)
  {
    ScopeRefused(segments, request);
    var scoped := ScopedSegments(segments, request);
    if scoped.Failure? { return Failure(scoped.error); }
    var admitted := scoped.value;
    ghost var left := ScopedGroups(request, segments, groups);
    ScopeHolds(k, segments, groups, request);
    var entries: seq<Entry> := [];
    for i := 0 to |admitted|
      invariant entries == FlatMap(SegmentEntries(request), admitted[..i])
    {
      FlatMapStep(SegmentEntries(request), admitted, i);
      var more := SegmentList(admitted[i], request);
      entries := entries + more;
    }
    assert admitted[..|admitted|] == admitted;
    AllEntries(k, admitted, left, request);
    ghost var wanted := Filter(WantedAtom(request), Filter(VisibleTo(request), Concat(groups)));
    SortMap(InventoryKey(), EntryKey(), EntryOf(k), wanted);
    var sorted := Sort(EntryKey(), entries);
    MapMap(EntryOf(k), EntryItem(), AtomItem(), Sort(InventoryKey(), wanted));
    TakeMap(EntryItem(), sorted, limit);
    return Success(Found(Map(EntryItem(), Take(sorted, limit)), |sorted| > limit));
  }

  /** The list, too, depends on the visible atoms only, and not on their order. */
  lemma ListAsIfRebuilt(atoms: seq<Atom>, seen: seq<Atom>, request: Request, limit: nat)
    requires DistinctAtoms(atoms)
    requires multiset(seen) == multiset(Filter(VisibleTo(request), atoms))
    ensures FlatList(atoms, request, limit) == FlatList(seen, request, limit)
  {
    var visible := Filter(VisibleTo(request), atoms);
    FilterTwice(VisibleTo(request), atoms);
    FilterPermutes(VisibleTo(request), seen, visible);
    FilterDistinct(VisibleTo(request), IdOf(), atoms);
    FilterDistinct(WantedAtom(request), IdOf(), visible);
    FilterPermutes(WantedAtom(request), visible, Filter(VisibleTo(request), seen));
    var wanted := Filter(WantedAtom(request), visible);
    forall i, j | 0 <= i < |wanted| && 0 <= j < |wanted| && InventoryKey()(wanted[i]) == InventoryKey()(wanted[j])
      ensures wanted[i] == wanted[j]
    {
      assert InventoryKey()(wanted[i])[2] == InventoryKey()(wanted[j])[2];
      DistinctAt(Map(IdOf(), wanted), i, j);
    }
    SortForgetsOrder(InventoryKey(), wanted, Filter(WantedAtom(request), Filter(VisibleTo(request), seen)));
  }

  // ---------------------------------------------------------------- opening named atoms

  function FactAtomId(): FactRow -> Digest { (f: FactRow) => f.at.atomId }

  lemma FactsByAtomHas(k: Kernel, atoms: seq<Atom>)
    requires DistinctAtoms(atoms)
    ensures forall a :: a in atoms ==>
      a.at.atomId in FactsByAtom(Map(FactOfAtom(k), atoms)) && FactsByAtom(Map(FactOfAtom(k), atoms))[a.at.atomId] == FactOf(k, a)
    ensures forall id :: id in FactsByAtom(Map(FactOfAtom(k), atoms)) ==> HasAtom(atoms, id)
  {
    var facts := Map(FactOfAtom(k), atoms);
    MapMap(FactOfAtom(k), FactAtomId(), IdOf(), atoms);
    forall a | a in atoms ensures a.at.atomId in FactsByAtom(facts) && FactsByAtom(facts)[a.at.atomId] == FactOf(k, a) {
      var i :| 0 <= i < |atoms| && atoms[i] == a;
      assert facts[i] == FactOfAtom(k)(a);
      ByAtomAt(FactAtomId(), facts, i);
    }
    ByAtomKeys(FactAtomId(), facts);
    forall id | id in FactsByAtom(facts) ensures HasAtom(atoms, id) {
      assert id in Map(IdOf(), atoms);
      var i :| 0 <= i < |atoms| && Map(IdOf(), atoms)[i] == id;
      assert atoms[i] in atoms;
    }
  }

  function FactsByAtom(facts: seq<FactRow>): map<Digest, FactRow> { ByAtom(FactAtomId(), facts) }

  ghost predicate ItemFrom(atoms: seq<Atom>, id: Digest, item: Item) {
    exists a :: a in atoms && a.at.atomId == id && item == ItemOf(a)
  }

  ghost predicate Sound(byAtom: map<Digest, Item>, atoms: seq<Atom>) {
    forall id :: id in byAtom ==> ItemFrom(atoms, id, byAtom[id])
  }

  ghost predicate Complete(byAtom: map<Digest, Item>, atoms: seq<Atom>, ids: seq<Digest>) {
    forall a :: a in atoms && a.at.atomId in ids ==> a.at.atomId in byAtom
  }

  /** `byAtom` holds the items of exactly those named atoms found among `atoms`. */
  ghost predicate Opened(byAtom: map<Digest, Item>, atoms: seq<Atom>, ids: seq<Digest>) {
    Sound(byAtom, atoms) && Complete(byAtom, atoms, ids)
  }

  lemma SoundGrows(byAtom: map<Digest, Item>, seen: seq<Atom>, atoms: seq<Atom>)
    requires Sound(byAtom, seen)
    ensures Sound(byAtom, seen + atoms)
  {
    forall id | id in byAtom ensures ItemFrom(seen + atoms, id, byAtom[id]) {
      var a :| a in seen && a.at.atomId == id && byAtom[id] == ItemOf(a);
      assert a in seen + atoms;
    }
  }

  lemma ItemOfFact(k: Kernel, segment: SegmentRows, atoms: seq<Atom>, id: Digest)
    requires Holding(k, segment, atoms) && DistinctAtoms(atoms)
    ensures id in FactsByAtom(segment.facts) ==> id in segment.content
    ensures id in FactsByAtom(segment.facts) ==>
      ItemFrom(atoms, id, ResultItem(FactsByAtom(segment.facts)[id], segment.content[id]))
    ensures id !in FactsByAtom(segment.facts) ==> forall a :: a in atoms ==> a.at.atomId != id
  {
    FactsByAtomHas(k, atoms);
    if id in FactsByAtom(segment.facts) {
      var a :| a in atoms && a.at.atomId == id;
      assert FactsByAtom(segment.facts)[id] == FactOf(k, a);
      assert segment.content[id] == ContentOf(k, a);
    }
  }

  function OpenOne(segment: SegmentRows, facts: map<Digest, FactRow>, byAtom: map<Digest, Item>, id: Digest): map<Digest, Item> {
    if id in facts && id in segment.content then byAtom[id := ResultItem(facts[id], segment.content[id])] else byAtom
  }

  lemma OpenSound(segment: SegmentRows, facts: map<Digest, FactRow>, atoms: seq<Atom>, byAtom: map<Digest, Item>, id: Digest)
    requires Sound(byAtom, atoms)
    requires id in facts ==> id in segment.content && ItemFrom(atoms, id, ResultItem(facts[id], segment.content[id]))
    ensures Sound(OpenOne(segment, facts, byAtom, id), atoms)
  {
  }

  lemma OpenComplete(segment: SegmentRows, facts: map<Digest, FactRow>, atoms: seq<Atom>, ids: seq<Digest>, i: nat, byAtom: map<Digest, Item>)
    requires i < |ids| && Complete(byAtom, atoms, ids[..i])
    requires ids[i] in facts ==> ids[i] in segment.content
    requires ids[i] !in facts ==> forall a :: a in atoms ==> a.at.atomId != ids[i]
    ensures Complete(OpenOne(segment, facts, byAtom, ids[i]), atoms, ids[..i + 1])
  {
    assert ids[..i + 1] == ids[..i] + [ids[i]];
  }

  lemma ItemFromGrows(seen: seq<Atom>, atoms: seq<Atom>, id: Digest, item: Item)
    requires ItemFrom(atoms, id, item)
    ensures ItemFrom(seen + atoms, id, item)
  {
    var a :| a in atoms && a.at.atomId == id && item == ItemOf(a);
    assert a in seen + atoms;
  }

  lemma OpenStep(k: Kernel, segment: SegmentRows, seen: seq<Atom>, atoms: seq<Atom>, ids: seq<Digest>, i: nat, byAtom: map<Digest, Item>)
    requires Holding(k, segment, atoms) && DistinctAtoms(atoms) && i < |ids|
    requires Sound(byAtom, seen + atoms) && Complete(byAtom, atoms, ids[..i])
    ensures Sound(OpenOne(segment, FactsByAtom(segment.facts), byAtom, ids[i]), seen + atoms)
    ensures Complete(OpenOne(segment, FactsByAtom(segment.facts), byAtom, ids[i]), atoms, ids[..i + 1])
    ensures byAtom.Keys <= OpenOne(segment, FactsByAtom(segment.facts), byAtom, ids[i]).Keys
  {
    var facts := FactsByAtom(segment.facts);
    ItemOfFact(k, segment, atoms, ids[i]);
    if ids[i] in facts { ItemFromGrows(seen, atoms, ids[i], ResultItem(facts[ids[i]], segment.content[ids[i]])); }
    OpenSound(segment, facts, seen + atoms, byAtom, ids[i]);
    OpenComplete(segment, facts, atoms, ids, i, byAtom);
  }

  method OpenInSegment(k: Kernel, segment: SegmentRows, ids: seq<Digest>, before: map<Digest, Item>, ghost seen: seq<Atom>, ghost atoms: seq<Atom>)
    returns (byAtom: map<Digest, Item>)
    requires Holding(k, segment, atoms) && DistinctAtoms(atoms)
    requires Opened(before, seen, ids)
    ensures Opened(byAtom, seen + atoms, ids)
  {
    byAtom := before;
    var facts := FactsByAtom(segment.facts);
    SoundGrows(before, seen, atoms);
    for i := 0 to |ids|
      invariant Sound(byAtom, seen + atoms) && Complete(byAtom, atoms, ids[..i])
      invariant before.Keys <= byAtom.Keys
    {
      OpenStep(k, segment, seen, atoms, ids, i, byAtom);
      byAtom := OpenOne(segment, facts, byAtom, ids[i]);
    }
    assert ids[..|ids|] == ids;
    CompleteTogether(before, byAtom, seen, atoms, ids);
  }

  lemma CompleteTogether(before: map<Digest, Item>, byAtom: map<Digest, Item>, seen: seq<Atom>, atoms: seq<Atom>, ids: seq<Digest>)
    requires Complete(before, seen, ids) && Complete(byAtom, atoms, ids) && before.Keys <= byAtom.Keys
    ensures Complete(byAtom, seen + atoms, ids)
  {
    forall a | a in seen + atoms && a.at.atomId in ids ensures a.at.atomId in byAtom {
      if a in seen { assert a.at.atomId in before.Keys; }
    }
  }

  function Lookup(byAtom: map<Digest, Item>): Digest -> seq<Item> {
    (id: Digest) => if id in byAtom then [byAtom[id]] else []
  }

  /** Opening atoms segment by segment opens the visible ones, in the order they were named. */
  method ReadSegments(k: Kernel, segments: seq<SegmentRows>, ids: seq<Digest>, request: Request, ghost groups: seq<seq<Atom>>)
    returns (r: Result<seq<Item>, SearchError>)
    requires Indexes(k, segments, groups) && DistinctAtoms(Concat(groups))
    ensures r == if Granted(request) then Success(FlatRead(Concat(groups), ids, request)) else Failure(ProjectNotGranted)
  {
    ScopeRefused(segments, request);
    var scoped := ScopedSegments(segments, request);
    if scoped.Failure? { return Failure(scoped.error); }
    var admitted := scoped.value;
    ghost var left := ScopedGroups(request, segments, groups);
    ScopeHolds(k, segments, groups, request);
    var byAtom: map<Digest, Item> := map[];
    for i := 0 to |admitted|
      invariant Opened(byAtom, Concat(left[..i]), ids)
    {
      ConcatDistinct(left, i);
      byAtom := OpenInSegment(k, admitted[i], ids, byAtom, Concat(left[..i]), left[i]);
      ConcatSplit(left, i);
    }
    assert left[..|left|] == left;
    LookupsAreOpen(Filter(VisibleTo(request), Concat(groups)), ids, byAtom);
    return Success(FlatMap(Lookup(byAtom), ids));
  }

  lemma LookupsAreOpen(visible: seq<Atom>, ids: seq<Digest>, byAtom: map<Digest, Item>)
    requires DistinctAtoms(visible) && Opened(byAtom, visible, ids)
    ensures FlatMap(Lookup(byAtom), ids) == FlatMap(OpenAtom(visible), ids)
  {
    forall id | id in ids ensures Lookup(byAtom)(id) == OpenAtom(visible)(id) { LookupIsOpen(visible, ids, byAtom, id); }
    FlatMapSame(Lookup(byAtom), OpenAtom(visible), ids);
  }

  lemma LookupIsOpen(visible: seq<Atom>, ids: seq<Digest>, byAtom: map<Digest, Item>, id: Digest)
    requires DistinctAtoms(visible) && Opened(byAtom, visible, ids) && id in ids
    ensures Lookup(byAtom)(id) == OpenAtom(visible)(id)
  {
    FilterMembers(HasId(id), visible);
    if id in byAtom {
      var a :| a in visible && a.at.atomId == id && byAtom[id] == ItemOf(a);
      OnlyHasId(visible, a);
      assert [a][1..] == [];
    } else {
      FilterNone(HasId(id), visible);
    }
  }

  lemma {:induction false} OnlyHasId(atoms: seq<Atom>, a: Atom)
    requires DistinctAtoms(atoms) && a in atoms
    ensures Filter(HasId(a.at.atomId), atoms) == [a]
  {
    DistinctTail(atoms);
    assert atoms == [atoms[0]] + atoms[1..];
    if atoms[0] == a {
      forall x | x in atoms[1..] ensures !HasId(a.at.atomId)(x) { HeadIdIsNew(atoms, x); }
      FilterNone(HasId(a.at.atomId), atoms[1..]);
    } else {
      HeadIdIsNew(atoms, a);
      OnlyHasId(atoms[1..], a);
    }
  }

  // ---------------------------------------------------------------- records

  datatype RecordRow = RecordRow(
    position: int, record: Digest, envelope: Digest, approval: Name, policy: PolicyId, audienceCount: nat, atomCount: int)

  /** What every fact of one record has to agree on. */
  datatype RecordFacts = RecordFacts(position: int, envelope: Digest, approval: Name, policy: PolicyId, audience: seq<Name>)

  function RecordFactsOf(f: FactRow): RecordFacts { RecordFacts(f.at.position, f.at.envelope, f.at.approval, f.policy, f.audience) }

  function AtomRecord(a: Atom): RecordFacts {
    RecordFacts(a.at.position, a.at.envelope, a.at.approval, a.policy, OrEmpty(a.audience))
  }

  predicate Consistent(atoms: seq<Atom>) {
    forall a, b | a in atoms && b in atoms :: a.at.record == b.at.record ==> AtomRecord(a) == AtomRecord(b)
  }

  function InRecord(record: Digest): Atom -> int { (a: Atom) => if a.at.record == record then 1 else 0 }

  /** One row for each record the atoms come from: what they agree on, and how many there are. */
  ghost predicate RecordsOf(rows: seq<RecordRow>, atoms: seq<Atom>) {
    && Distinct(Map(RecordOfRow(), rows))
    && (forall a :: a in atoms ==> a.at.record in Map(RecordOfRow(), rows))
    && (forall row :: row in rows ==> RowOf(row, atoms))
  }

  ghost predicate RowOf(row: RecordRow, atoms: seq<Atom>) {
    row.atomCount == Sum(InRecord(row.record), atoms) && exists a :: a in atoms && RowAgrees(row, a)
  }

  predicate RowAgrees(row: RecordRow, a: Atom) {
    && row.record == a.at.record && row.position == a.at.position && row.envelope == a.at.envelope
    && row.approval == a.at.approval && row.policy == a.policy && row.audienceCount == |OrEmpty(a.audience)|
  }

  function RecordOfRow(): RecordRow -> Digest { (r: RecordRow) => r.record }

  function RowKey(): RecordRow -> Key { (r: RecordRow) => [-r.position] }

  /** The first fact met of one record, and how many were met. */
  datatype Group = Group(fact: FactRow, count: int)

  function RowFrom(record: Digest, group: Group): RecordRow {
    var f := group.fact;
    RecordRow(f.at.position, record, f.at.envelope, f.at.approval, f.policy, |f.audience|, group.count)
  }

  /** The Map of one pass, with its records in the order they were first met. */
  datatype Grouped = Grouped(groups: map<Digest, Group>, order: seq<Digest>) {
    predicate Has(record: Digest) { record in groups }

    function Add(fact: FactRow): Grouped {
      var record := fact.at.record;
      if record in groups then Grouped(groups[record := groups[record].(count := groups[record].count + 1)], order)
      else Grouped(groups[record := Group(fact, 1)], order + [record])
    }
  }

  /** What the pass has grouped once it has met these atoms. */
  function GroupedOf(k: Kernel, atoms: seq<Atom>): (grouped: Grouped)
    ensures forall record :: record in grouped.order ==> grouped.Has(record)
  {
    if atoms == [] then Grouped(map[], []) else GroupedOf(k, atoms[..|atoms| - 1]).Add(FactOf(k, atoms[|atoms| - 1]))
  }

  ghost predicate GroupFrom(k: Kernel, group: Group, record: Digest, atoms: seq<Atom>) {
    group.count == Sum(InRecord(record), atoms) && FirstOf(k, group.fact, record, atoms)
  }

  ghost predicate FirstOf(k: Kernel, fact: FactRow, record: Digest, atoms: seq<Atom>) {
    exists a :: a in atoms && a.at.record == record && fact == FactOf(k, a)
  }

  ghost predicate Agrees(grouped: Grouped, a: Atom) {
    grouped.Has(a.at.record) && RecordFactsOf(grouped.groups[a.at.record].fact) == AtomRecord(a)
  }

  ghost predicate GroupsSoFar(k: Kernel, grouped: Grouped, atoms: seq<Atom>) {
    && Distinct(grouped.order)
    && (forall record :: record in grouped.order <==> grouped.Has(record))
    && (forall a :: a in atoms ==> Agrees(grouped, a))
    && (forall record :: grouped.Has(record) ==> GroupFrom(k, grouped.groups[record], record, atoms))
    && grouped == GroupedOf(k, atoms)
  }

  lemma CountStep(record: Digest, atoms: seq<Atom>, a: Atom)
    ensures Sum(InRecord(record), atoms + [a]) == Sum(InRecord(record), atoms) + InRecord(record)(a)
    ensures (forall b :: b in atoms ==> b.at.record != record) ==> Sum(InRecord(record), atoms) == 0
  {
    SumConcat(InRecord(record), atoms, [a]);
    assert [a][1..] == [];
    if forall b :: b in atoms ==> b.at.record != record { SumAbsent(InRecord(record), atoms); }
  }

  lemma GroupStepAt(k: Kernel, grouped: Grouped, atoms: seq<Atom>, a: Atom, record: Digest)
    requires GroupsSoFar(k, grouped, atoms) && grouped.Add(FactOf(k, a)).Has(record)
    ensures GroupFrom(k, grouped.Add(FactOf(k, a)).groups[record], record, atoms + [a])
  {
    CountStep(record, atoms, a);
    if grouped.Has(record) {
      assert GroupFrom(k, grouped.groups[record], record, atoms);
      var b :| b in atoms && b.at.record == record && grouped.groups[record].fact == FactOf(k, b);
      assert b in atoms + [a];
    } else {
      forall b | b in atoms ensures b.at.record != record { assert Agrees(grouped, b); }
      assert a in atoms + [a];
    }
  }

  lemma GroupStep(k: Kernel, grouped: Grouped, atoms: seq<Atom>, a: Atom)
    requires GroupsSoFar(k, grouped, atoms)
    requires grouped.Has(a.at.record) ==> Agrees(grouped, a)
    ensures GroupsSoFar(k, grouped.Add(FactOf(k, a)), atoms + [a])
  {
    var after := grouped.Add(FactOf(k, a));
    assert (atoms + [a])[..|atoms|] == atoms;
    forall record | after.Has(record) ensures GroupFrom(k, after.groups[record], record, atoms + [a]) {
      GroupStepAt(k, grouped, atoms, a, record);
    }
    forall b | b in atoms + [a] ensures Agrees(after, b) {
      if b in atoms { assert Agrees(grouped, b); }
    }
  }

  function Rows(groups: map<Digest, Group>, order: seq<Digest>): seq<RecordRow>
    requires forall record :: record in order ==> record in groups
  {
    if order == [] then [] else [RowFrom(order[0], groups[order[0]])] + Rows(groups, order[1..])
  }

  lemma {:induction false} RowsOfGroups(groups: map<Digest, Group>, order: seq<Digest>)
    requires forall record :: record in order ==> record in groups
    ensures Map(RecordOfRow(), Rows(groups, order)) == order
    ensures forall row :: row in Rows(groups, order) ==> row.record in groups && row == RowFrom(row.record, groups[row.record])
  {
    if order != [] {
      RowsOfGroups(groups, order[1..]);
      assert Rows(groups, order)[1..] == Rows(groups, order[1..]);
      assert Rows(groups, order) == [RowFrom(order[0], groups[order[0]])] + Rows(groups, order[1..]);
    }
  }

  lemma GroupedRows(k: Kernel, grouped: Grouped, atoms: seq<Atom>)
    requires GroupsSoFar(k, grouped, atoms)
    ensures RecordsOf(Rows(grouped.groups, grouped.order), atoms)
  {
    var rows := Rows(grouped.groups, grouped.order);
    RowsOfGroups(grouped.groups, grouped.order);
    forall row | row in rows ensures RowOf(row, atoms) {
      assert GroupFrom(k, grouped.groups[row.record], row.record, atoms);
      var a :| a in atoms && a.at.record == row.record && grouped.groups[row.record].fact == FactOf(k, a);
      assert RowAgrees(row, a);
    }
    forall a | a in atoms ensures a.at.record in grouped.order { assert Agrees(grouped, a); }
  }

  lemma GroupsConsistent(k: Kernel, grouped: Grouped, atoms: seq<Atom>)
    requires GroupsSoFar(k, grouped, atoms)
    ensures Consistent(atoms)
  {
    forall a, b | a in atoms && b in atoms && a.at.record == b.at.record ensures AtomRecord(a) == AtomRecord(b) {
      assert Agrees(grouped, a) && Agrees(grouped, b);
    }
  }

  lemma SortedRows(rows: seq<RecordRow>, atoms: seq<Atom>)
    requires RecordsOf(rows, atoms)
    ensures RecordsOf(Sort(RowKey(), rows), atoms)
    ensures NewestFirst(Sort(RowKey(), rows))
  {
    var sorted := Sort(RowKey(), rows);
    SortPermutes(RowKey(), rows);
    SortSorts(RowKey(), rows);
    SortMembers(RowKey(), rows);
    MapPermutes(RecordOfRow(), rows, sorted);
    DistinctPermutes(Map(RecordOfRow(), rows), Map(RecordOfRow(), sorted));
    forall a | a in atoms ensures a.at.record in Map(RecordOfRow(), sorted) {
      assert a.at.record in multiset(Map(RecordOfRow(), rows));
    }
    SortedNewestFirst(sorted);
  }

  lemma SortedNewestFirst(rows: seq<RecordRow>)
    requires Sorted(RowKey(), rows)
    ensures NewestFirst(rows)
  {
    forall i, j | 0 <= i < j < |rows| ensures rows[i].position >= rows[j].position {
      assert !Less(RowKey()(rows[j]), RowKey()(rows[i]));
    }
  }

  predicate NewestFirst(rows: seq<RecordRow>) {
    forall i, j | 0 <= i < j < |rows| :: rows[i].position >= rows[j].position
  }

  predicate Clashes(grouped: Grouped, fact: FactRow) {
    grouped.Has(fact.at.record) && RecordFactsOf(grouped.groups[fact.at.record].fact) != RecordFactsOf(fact)
  }

  method GroupSegment(k: Kernel, facts: seq<FactRow>, before: Grouped, ghost seen: seq<Atom>, ghost atoms: seq<Atom>)
    returns (ok: bool, grouped: Grouped)
    requires facts == Map(FactOfAtom(k), atoms)
    requires GroupsSoFar(k, before, seen)
    ensures ok ==> GroupsSoFar(k, grouped, seen + atoms)
    ensures !ok ==> !Consistent(seen + atoms)
  {
    grouped, ok := before, true;
    ghost var met := seen;
    assert seen == seen + atoms[..0];
    for i := 0 to |facts|
      invariant met == seen + atoms[..i] && GroupsSoFar(k, grouped, met)
    {
      PrefixNext(seen, atoms, i, met);
      GroupFact(k, facts[i], grouped, met, atoms[i], seen + atoms);
      if Clashes(grouped, facts[i]) { return false, grouped; }
      grouped, met := grouped.Add(facts[i]), met + [atoms[i]];
    }
    assert atoms[..|facts|] == atoms;
  }

  predicate Within(some: seq<Atom>, all: seq<Atom>) { forall a :: a in some ==> a in all }

  lemma PrefixNext(seen: seq<Atom>, atoms: seq<Atom>, i: nat, met: seq<Atom>)
    requires i < |atoms| && met == seen + atoms[..i]
    ensures atoms[i] in seen + atoms && Within(met, seen + atoms) && met + [atoms[i]] == seen + atoms[..i + 1]
  {
    assert (seen + atoms)[|seen| + i] == atoms[i];
    assert met == (seen + atoms)[..|seen| + i];
  }

  lemma GroupFact(k: Kernel, fact: FactRow, grouped: Grouped, met: seq<Atom>, a: Atom, all: seq<Atom>)
    requires fact == FactOfAtom(k)(a) && GroupsSoFar(k, grouped, met) && a in all && Within(met, all)
    ensures Clashes(grouped, fact) ==> !Consistent(all)
    ensures !Clashes(grouped, fact) ==> GroupsSoFar(k, grouped.Add(fact), met + [a])
  {
    if Clashes(grouped, fact) {
      Clash(k, grouped, met, all, a);
    } else {
      GroupStep(k, grouped, met, a);
    }
  }

  lemma Clash(k: Kernel, grouped: Grouped, met: seq<Atom>, atoms: seq<Atom>, a: Atom)
    requires GroupsSoFar(k, grouped, met) && a in atoms && Within(met, atoms) && Clashes(grouped, FactOf(k, a))
    ensures !Consistent(atoms)
  {
    assert GroupFrom(k, grouped.groups[a.at.record], a.at.record, met);
    var b :| b in met && b.at.record == a.at.record && grouped.groups[a.at.record].fact == FactOf(k, b);
  }

  method GroupAll(k: Kernel, segments: seq<SegmentRows>, ghost groups: seq<seq<Atom>>) returns (ok: bool, grouped: Grouped)
    requires Indexes(k, segments, groups)
    ensures ok ==> GroupsSoFar(k, grouped, Concat(groups))
    ensures ok == Consistent(Concat(groups))
  {
    grouped, ok := Grouped(map[], []), true;
    for i := 0 to |segments|
      invariant GroupsSoFar(k, grouped, Concat(groups[..i]))
    {
      ConcatSplit(groups, i);
      ok, grouped := GroupSegment(k, segments[i].facts, grouped, Concat(groups[..i]), groups[i]);
      if !ok { return; }
    }
    assert groups[..|groups|] == groups;
    GroupsConsistent(k, grouped, Concat(groups));
  }

  /**
   * The record rows of what the reader sees: newest first, one for each record,
   * refused when two of its visible atoms disagree on the record.
   */
  method ListRecords(k: Kernel, segments: seq<SegmentRows>, request: Request, ghost groups: seq<seq<Atom>>)
    returns (r: Result<seq<RecordRow>, SearchError>)
    requires Indexes(k, segments, groups) && DistinctAtoms(Concat(groups))
    ensures !Granted(request) ==> r == Failure(ProjectNotGranted)
    ensures Granted(request) ==>
      var visible := Filter(VisibleTo(request), Concat(groups));
      RecordAnswer(r, visible) && (r.Success? ==> r.value == RecordRows(k, visible))
  {
    ScopeRefused(segments, request);
    var scoped := ScopedSegments(segments, request);
    if scoped.Failure? { return Failure(scoped.error); }
    ghost var left := ScopedGroups(request, segments, groups);
    ScopeHolds(k, segments, groups, request);
    var ok, grouped := GroupAll(k, scoped.value, left);
    if !ok { return Failure(InconsistentRecord); }
    GroupedRows(k, grouped, Concat(left));
    var rows := Rows(grouped.groups, grouped.order);
    SortedRows(rows, Concat(left));
    return Success(Sort(RowKey(), rows));
  }

  function RecordRows(k: Kernel, atoms: seq<Atom>): seq<RecordRow> {
    Sort(RowKey(), Rows(GroupedOf(k, atoms).groups, GroupedOf(k, atoms).order))
  }

  ghost predicate RecordAnswer(r: Result<seq<RecordRow>, SearchError>, visible: seq<Atom>) {
    if Consistent(visible) then r.Success? && NewestFirst(r.value) && RecordsOf(r.value, visible)
    else r == Failure(InconsistentRecord)
  }

  lemma ConcatSplit<T>(groups: seq<seq<T>>, i: nat)
    requires i < |groups|
    ensures Concat(groups[..i + 1]) == Concat(groups[..i]) + groups[i]
    ensures forall x :: x in Concat(groups[..i + 1]) ==> x in Concat(groups)
  {
    assert groups[..i + 1] == groups[..i] + [groups[i]];
    ConcatConcat(groups[..i], [groups[i]]);
    assert [groups[i]][1..] == [];
    assert Concat([groups[i]]) == groups[i] + [];
    assert groups == groups[..i + 1] + groups[i + 1..];
    ConcatConcat(groups[..i + 1], groups[i + 1..]);
  }
}
