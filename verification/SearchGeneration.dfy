/** One immutable generation, whatever the input order. */
module SearchGeneration {
  import opened Wrappers
  import opened Sequences
  import opened Sorting
  import opened SearchModel
  import opened SearchIndex
  import opened SearchBuild

  function IdKey(): Digest -> Key { (id: Digest) => [id] }

  /** The segment identities in byte order. */
  ghost predicate OrderedIds(ids: seq<Digest>, members: set<Digest>) {
    Distinct(ids) && Sorted(IdKey(), ids) && Lists(ids, members)
  }

  ghost predicate Lists(ids: seq<Digest>, members: set<Digest>) { forall id :: id in ids <==> id in members }

  lemma OrderedIdsUnique(a: seq<Digest>, b: seq<Digest>, members: set<Digest>)
    requires OrderedIds(a, members) && OrderedIds(b, members)
    ensures a == b
  {
    forall id ensures id in a <==> id in b { assert id in a <==> id in members; }
    SameMembers(a, b);
    forall i, j | 0 <= i < |a| && 0 <= j < |a| && IdKey()(a[i]) == IdKey()(a[j]) ensures a[i] == a[j] {
      assert IdKey()(a[i])[0] == IdKey()(a[j])[0];
    }
    SortedUnique(IdKey(), a, b);
  }

  lemma OrderedMember(ids: seq<Digest>, members: set<Digest>)
    requires Lists(ids, members)
    ensures forall i :: 0 <= i < |ids| ==> ids[i] in members
    ensures ids == [] <==> members == {}
  {
    forall i | 0 <= i < |ids| ensures ids[i] in members {
      var id := ids[i];
      assert id in ids <==> id in members;
      assert id in ids;
    }
    if ids == [] {
      forall id ensures id !in members { assert id in ids <==> id in members; }
      assert members == {};
    } else {
      assert ids[0] in members;
    }
  }

  function GroupFor(k: Kernel, input: BuildInput, id: Digest): seq<Atom> {
    Filter(InSegment(k, input.lineage, id), input.atoms)
  }

  lemma GroupNotEmpty(k: Kernel, lineage: Lineage, atoms: seq<Atom>, id: Digest)
    requires id in SegmentIds(k, lineage, atoms)
    ensures Filter(InSegment(k, lineage, id), atoms) != []
  {
    FilterMembers(InSegment(k, lineage, id), atoms);
    var a :| a in atoms && SegmentIdOf(k, lineage)(a) == id;
    assert a in Filter(InSegment(k, lineage, id), atoms);
  }

  function SegmentFor(k: Kernel, input: BuildInput, id: Digest): SegmentFiles
    requires ValidPlanes(k, input) && id in SegmentIds(k, input.lineage, input.atoms)
  {
    GroupNotEmpty(k, input.lineage, input.atoms, id);
    FilesOf(k, input, id, TupleOf(GroupFor(k, input, id)[0]), GroupFor(k, input, id))
  }

  function AtomKey(): Atom -> Key { (a: Atom) => [a.at.position, a.at.order, a.at.atomId] }

  function RootsOf(k: Kernel, entries: seq<SegmentEntry>): Roots {
    Roots(k.sha(GenerationRoot(FactsPlane, entries)), k.sha(GenerationRoot(ContentPlane, entries)),
          k.sha(GenerationRoot(LexicalPlane, entries)))
  }

  function PoliciesOf(input: BuildInput): seq<PolicyStamp> {
    [PolicyStamp(RestrictedReviewer, input.reviewerContract)]
    + if input.projectContract.Some? then [PolicyStamp(ProjectMembers, input.projectContract.value)] else []
  }

  function BodyOf(k: Kernel, input: BuildInput, entries: seq<SegmentEntry>): GenerationBody {
    GenerationBody(
      input.lineage, input.head, input.retrievalContract, PoliciesOf(input),
      k.sha(InputRoot(input.lineage, input.planes, input.head, Sort(AtomKey(), input.atoms))),
      input.sourceRevision, input.builder, input.analyzer, input.sqlite, RootsOf(k, entries), entries)
  }

  function EntryId(): SegmentEntry -> Digest { (e: SegmentEntry) => e.segmentId }

  function DeclaredIds(body: GenerationBody): seq<Digest> { Map(EntryId(), body.segments) }

  ghost predicate SegmentsOf(k: Kernel, input: BuildInput, segments: map<Digest, SegmentFiles>) {
    && segments.Keys == SegmentIds(k, input.lineage, input.atoms)
    && (segments != map[] ==> ValidPlanes(k, input))
    && forall id :: id in segments ==> segments[id] == SegmentFor(k, input, id)
  }

  function EntriesOf(k: Kernel, segments: map<Digest, SegmentFiles>, ids: seq<Digest>): seq<SegmentEntry>
    requires forall i :: 0 <= i < |ids| ==> ids[i] in segments
  {
    if ids == [] then [] else [EntryFor(k, segments[ids[0]].manifest)] + EntriesOf(k, segments, ids[1..])
  }

  /** The generation the build promises for this input. */
  ghost predicate IsBuilt(k: Kernel, input: BuildInput, tree: Tree) {
    var body := tree.manifest.body;
    && SegmentsOf(k, input, tree.segments)
    && OrderedIds(DeclaredIds(body), SegmentIds(k, input.lineage, input.atoms))
    && (forall i :: 0 <= i < |DeclaredIds(body)| ==> DeclaredIds(body)[i] in tree.segments)
    && body.segments == EntriesOf(k, tree.segments, DeclaredIds(body))
    && body == BodyOf(k, input, body.segments)
    && tree.manifest.generationId == k.sha(GenerationIdentity(body))
  }

  /** Everything the build asks of its input. */
  ghost predicate Buildable(k: Kernel, input: BuildInput) {
    && ValidCoordinates(input) && ValidAtoms(k, input) && WithinBudget(k, input)
    && (input.atoms != [] ==> ValidPlanes(k, input))
    && (forall id :: id in SegmentIds(k, input.lineage, input.atoms) ==> Segmentable(k, GroupFor(k, input, id)))
    && Rootable(input) && Stampable(input)
  }

  /** The digest of the whole input can be taken. */
  predicate Rootable(input: BuildInput) {
    ScalarLineage(input.lineage) && ScalarLineage(input.head.lineage)
    && (forall plane | plane in input.planes :: Scalar(input.planes[plane].text))
    && forall i | 0 <= i < |input.atoms| :: Bindable(input.atoms[i]) && Scalar(input.atoms[i].text)
  }

  /** And that of the generation's identity. */
  predicate Stampable(input: BuildInput) {
    ScalarLineage(input.lineage) && ScalarLineage(input.head.lineage)
    && Scalar(input.sourceRevision) && ScalarAnalyzer(input.analyzer) && Scalar(input.sqlite)
  }

  lemma {:induction false} EntriesHaveIds(k: Kernel, segments: map<Digest, SegmentFiles>, ids: seq<Digest>)
    requires forall i :: 0 <= i < |ids| ==> ids[i] in segments && segments[ids[i]].manifest.segmentId == ids[i]
    ensures Map(EntryId(), EntriesOf(k, segments, ids)) == ids
    ensures forall i :: 0 <= i < |ids| ==> EntriesOf(k, segments, ids)[i] == EntryFor(k, segments[ids[i]].manifest)
  {
    if ids != [] {
      forall i | 0 <= i < |ids[1..]| ensures ids[1..][i] in segments && segments[ids[1..][i]].manifest.segmentId == ids[1..][i] {
        assert ids[1..][i] == ids[i + 1];
      }
      EntriesHaveIds(k, segments, ids[1..]);
      var entries := EntriesOf(k, segments, ids);
      assert entries[1..] == EntriesOf(k, segments, ids[1..]);
      assert Map(EntryId(), entries) == [entries[0].segmentId] + Map(EntryId(), entries[1..]);
    }
  }

  /** Atoms of one segment share their policy tuple, because the digest is injective. */
  lemma SharedTuple(k: Kernel, lineage: Lineage, id: Digest, tuple: PolicyTuple, a: Atom)
    requires k.Valid() && k.sha(SegmentIdentity(lineage, tuple)) == id && SegmentIdOf(k, lineage)(a) == id
    ensures TupleOf(a) == tuple
  {
    k.ShaInjective(SegmentIdentity(lineage, tuple), SegmentIdentity(lineage, TupleOf(a)));
  }

  lemma GroupMembers(k: Kernel, input: BuildInput, id: Digest)
    ensures forall a :: a in GroupFor(k, input, id) <==> a in input.atoms && SegmentIdOf(k, input.lineage)(a) == id
  {
    FilterMembers(InSegment(k, input.lineage, id), input.atoms);
    forall a ensures a in GroupFor(k, input, id) <==> a in input.atoms && SegmentIdOf(k, input.lineage)(a) == id {
      assert a in GroupFor(k, input, id) <==> a in input.atoms && InSegment(k, input.lineage, id)(a);
    }
  }

  lemma GroupHasSegment(k: Kernel, input: BuildInput, group: AtomGroup, id: Digest)
    requires k.Valid() && ValidPlanes(k, input) && id in SegmentIds(k, input.lineage, input.atoms)
    requires GroupIs(k, input.lineage, group, id, input.atoms)
    ensures FilesOf(k, input, id, group.tuple, group.atoms) == SegmentFor(k, input, id)
  {
    GroupNotEmpty(k, input.lineage, input.atoms, id);
    GroupMembers(k, input, id);
    assert group.atoms[0] in group.atoms;
    SharedTuple(k, input.lineage, id, group.tuple, group.atoms[0]);
  }

  /** The policy of a group of admitted atoms has an identity and passes the check on its metadata row. */
  lemma GroupTupleChecks(k: Kernel, input: BuildInput, group: AtomGroup, id: Digest)
    requires k.Valid() && ValidAtoms(k, input) && WithinBudget(k, input) && id in SegmentIds(k, input.lineage, input.atoms)
    requires GroupIs(k, input.lineage, group, id, input.atoms)
    ensures TupleCheck(group.tuple) && Identifiable(input.lineage, group.tuple)
  {
    GroupNotEmpty(k, input.lineage, input.atoms, id);
    GroupMembers(k, input, id);
    var a := group.atoms[0];
    assert a in group.atoms && ValidAtom(k, input, a) && ValidPolicy(a) && Admissible(k, input.lineage, a);
    SharedTuple(k, input.lineage, id, group.tuple, a);
  }

  ghost predicate BuiltSoFar(k: Kernel, input: BuildInput, segments: map<Digest, SegmentFiles>, ids: seq<Digest>) {
    && (ids != [] ==> ValidPlanes(k, input))
    && (forall id :: id in segments <==> id in ids)
    && (forall id :: id in ids ==> id in SegmentIds(k, input.lineage, input.atoms))
    && (forall id :: id in ids ==> Segmentable(k, GroupFor(k, input, id)))
    && (ids != [] ==> forall id :: id in ids ==> segments[id] == SegmentFor(k, input, id))
  }

  lemma BuiltStep(k: Kernel, input: BuildInput, segments: map<Digest, SegmentFiles>, ids: seq<Digest>, id: Digest)
    requires ValidPlanes(k, input) && BuiltSoFar(k, input, segments, ids)
    requires id in SegmentIds(k, input.lineage, input.atoms) && Segmentable(k, GroupFor(k, input, id))
    ensures BuiltSoFar(k, input, segments[id := SegmentFor(k, input, id)], ids + [id])
  {
  }

  lemma BuiltAll(k: Kernel, input: BuildInput, segments: map<Digest, SegmentFiles>, ids: seq<Digest>)
    requires BuiltSoFar(k, input, segments, ids)
    requires OrderedIds(ids, SegmentIds(k, input.lineage, input.atoms))
    ensures SegmentsOf(k, input, segments)
  {
    forall id ensures id in segments <==> id in SegmentIds(k, input.lineage, input.atoms) { assert id in ids <==> id in segments; }
    OrderedMember(ids, SegmentIds(k, input.lineage, input.atoms));
    assert segments.Keys == SegmentIds(k, input.lineage, input.atoms);
  }

  /** Builds every group's segment, in the order of the identities. */
  method BuildSegments(k: Kernel, input: BuildInput, groups: map<Digest, AtomGroup>, order: seq<Digest>, ids: seq<Digest>)
    returns (r: Result<map<Digest, SegmentFiles>, BuildError>)
    requires k.Valid() && ValidAtoms(k, input) && WithinBudget(k, input) && GroupsOf(k, input.lineage, groups, order, input.atoms)
    requires OrderedIds(ids, SegmentIds(k, input.lineage, input.atoms))
    ensures r.Success? <==> ((ids != [] ==> ValidPlanes(k, input)) && forall id :: id in ids ==> Segmentable(k, GroupFor(k, input, id)))
    ensures r.Success? ==> SegmentsOf(k, input, r.value)
  {
    var segments: map<Digest, SegmentFiles> := map[];
    OrderedMember(ids, SegmentIds(k, input.lineage, input.atoms));
    for i := 0 to |ids|
      invariant BuiltSoFar(k, input, segments, ids[..i])
    {
      var id := ids[i];
      assert id in ids && id in groups && GroupIs(k, input.lineage, groups[id], id, input.atoms);
      GroupTupleChecks(k, input, groups[id], id);
      var built := BuildSegment(k, input, groups[id]);
      if built.Failure? { return Failure(built.error); }
      GroupHasSegment(k, input, groups[id], id);
      BuiltStep(k, input, segments, ids[..i], id);
      segments := segments[id := built.value];
      PrefixGrows(ids, i);
    }
    assert ids[..|ids|] == ids;
    BuiltAll(k, input, segments, ids);
    return Success(segments);
  }

  /** Builds a generation: it succeeds exactly on buildable input, and then it is the promised one. */
  method Build(k: Kernel, input: BuildInput) returns (r: Result<Tree, BuildError>)
    requires k.Valid()
    ensures r.Success? <==> Buildable(k, input)
    ensures r.Success? ==> IsBuilt(k, input, r.value)
  {
    if !ValidCoordinates(input) { return Failure(InvalidInput); }
    var wrong := CheckAtoms(k, input);
    if wrong.Some? { return Failure(wrong.value); }
    var excess := CheckBudget(k, input);
    if excess.Some? { return Failure(NotAdmitted(excess.value)); }
    var groups, order := GroupAtoms(k, input.lineage, input.atoms);
    var ids := Sort(IdKey(), order);
    SortOrdersIds(order, SegmentIds(k, input.lineage, input.atoms));
    OrderedMember(ids, SegmentIds(k, input.lineage, input.atoms));
    IdsEmpty(k, input, ids);
    var built := BuildSegments(k, input, groups, order, ids);
    if built.Failure? { return Failure(built.error); }
    if !Rootable(input) || !Stampable(input) { return Failure(NotDigestible); }
    var segments := built.value;
    var entries := EntriesOf(k, segments, ids);
    EntriesHaveIds(k, segments, ids);
    var body := BodyOf(k, input, entries);
    return Success(Tree(GenerationManifest(k.sha(GenerationIdentity(body)), body), segments));
  }

  lemma SortOrdersIds(order: seq<Digest>, members: set<Digest>)
    requires Distinct(order) && forall id :: id in order <==> id in members
    ensures OrderedIds(Sort(IdKey(), order), members)
  {
    SortSorts(IdKey(), order);
    SortPermutes(IdKey(), order);
    SortMembers(IdKey(), order);
    DistinctPermutes(order, Sort(IdKey(), order));
  }

  lemma IdsEmpty(k: Kernel, input: BuildInput, ids: seq<Digest>)
    requires OrderedIds(ids, SegmentIds(k, input.lineage, input.atoms))
    ensures ids == [] <==> input.atoms == []
  {
    if input.atoms != [] {
      assert SegmentIdOf(k, input.lineage)(input.atoms[0]) in SegmentIds(k, input.lineage, input.atoms);
    }
    OrderedMember(ids, SegmentIds(k, input.lineage, input.atoms));
  }

  // ---------------------------------------------------------------- the identity forgets the input order

  lemma MappedSeparates<R>(key: R -> Key, f: Atom -> R, atoms: seq<Atom>)
    requires DistinctAtoms(atoms)
    requires forall a, b :: key(f(a)) == key(f(b)) ==> a.at.atomId == b.at.atomId
    ensures Separates(key, Map(f, atoms))
  {
    var rows := Map(f, atoms);
    forall i, j | 0 <= i < |rows| && 0 <= j < |rows| && key(rows[i]) == key(rows[j]) ensures rows[i] == rows[j] {
      assert key(f(atoms[i])) == key(f(atoms[j]));
      DistinctAt(Map(IdOf(), atoms), i, j);
    }
  }

  /** Rows read back in key order are the same for any insertion order. */
  lemma RowsForgetOrder<R>(key: R -> Key, f: Atom -> R, a: seq<Atom>, b: seq<Atom>)
    requires multiset(a) == multiset(b) && DistinctAtoms(a)
    requires forall x, y :: key(f(x)) == key(f(y)) ==> x.at.atomId == y.at.atomId
    ensures Sort(key, Map(f, a)) == Sort(key, Map(f, b))
  {
    MapPermutes(f, a, b);
    MappedSeparates(key, f, a);
    SortForgetsOrder(key, Map(f, a), Map(f, b));
  }

  lemma PostingKeySeparates(p: PostingRow, q: PostingRow)
    requires PostingKey()(p) == PostingKey()(q)
    ensures p.term == q.term && p.atomId == q.atomId
  {
    var a, b := PostingKey()(p), PostingKey()(q);
    assert |p.term| == |a| - 2 && |q.term| == |b| - 2;
    assert p.term == a[..|a| - 2] && q.term == b[..|b| - 2];
    assert a[|a| - 1] == p.atomId && b[|b| - 1] == q.atomId;
  }

  lemma PostingsForgetOrder(k: Kernel, a: seq<Atom>, b: seq<Atom>)
    requires multiset(a) == multiset(b)
    requires ProperPostings(FlatMap(PostingsOfAtom(k), a))
    ensures Sort(PostingKey(), FlatMap(PostingsOfAtom(k), a)) == Sort(PostingKey(), FlatMap(PostingsOfAtom(k), b))
  {
    FlatMapPermutes(PostingsOfAtom(k), a, b);
    var rows := FlatMap(PostingsOfAtom(k), a);
    forall i, j | 0 <= i < |rows| && 0 <= j < |rows| && PostingKey()(rows[i]) == PostingKey()(rows[j]) ensures rows[i] == rows[j] {
      PostingKeySeparates(rows[i], rows[j]);
      DistinctAt(Map(PairOf(), rows), i, j);
    }
    SortForgetsOrder(PostingKey(), rows, FlatMap(PostingsOfAtom(k), b));
  }
}
