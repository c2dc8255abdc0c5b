/** Building segments of rows out of accepted atoms. */
module SearchBuild {
  import opened Wrappers
  import Utf8
  import opened Sequences
  import opened Sorting
  import opened SearchModel
  import opened SearchIndex

  const MAXIMUM_ATOMS := 8192
  const MAXIMUM_SEGMENTS := 128
  const MAXIMUM_ATOM_TEXT_BYTES := 4096
  const MAXIMUM_POSTINGS := 204800

  datatype BuildInput = BuildInput(
    lineage: Lineage, planes: map<Plane, PlaneManifest>, baseline: map<Plane, Digest>, head: Head,
    retrievalContract: Digest, reviewerContract: Digest, projectContract: Option<Digest>,
    analyzer: AnalyzerStamp, sourceRevision: Name, builder: Digest, sqlite: Name, atoms: seq<Atom>)

  /** What admission refuses. */
  datatype Excess = TooManyAtoms | TooManySegments | TextTooLong | NameNotScalar | TextNotNormal | TooManyPostings

  datatype BuildError = InvalidInput | InvalidAtom | DuplicateAtom | NotAdmitted(excess: Excess) | InvalidPlane | RowConflict | NotDigestible

  // ---------------------------------------------------------------- admission

  predicate ValidText(value: Name) { 0 < |value| <= 4096 }

  predicate IsPositive(n: int) { 0 < n <= MAXIMUM_SAFE_INTEGER }

  predicate IsNonNegative(n: int) { 0 <= n <= MAXIMUM_SAFE_INTEGER }

  /** Sorted, unique, bounded and printable as canonical JSON; at least one when required. */
  predicate CanonicalIds(ids: seq<Name>, required: bool) {
    && |ids| <= 20 && (required ==> |ids| >= 1)
    && (forall i | 0 <= i < |ids| :: 1 <= |ids[i]| <= 512)
    && (forall i | 0 < i < |ids| :: Less(ids[i - 1], ids[i]))
    && ScalarIds(ids)
  }

  predicate ValidIds(ids: Option<seq<Name>>, required: bool) {
    if ids.None? then !required else CanonicalIds(ids.value, required)
  }

  predicate ValidOptionalText(value: Option<Name>) { value.Some? && ValidText(value.value) }

  predicate ValidPolicy(a: Atom) {
    match a.policy
    case RestrictedReviewer =>
      ValidOptionalText(a.principal) && ValidOptionalText(a.membership)
      && ValidIds(a.audience, false) && OrEmpty(a.audience) == [] && ValidIds(a.association, false)
    case ProjectMembers =>
      a.principal.None? && a.membership.None? && ValidIds(a.audience, true) && ValidIds(a.association, true)
    case UnsupportedPolicy => false
  }

  function ExpectedContract(input: BuildInput, policy: PolicyId): Option<Digest> {
    if policy == RestrictedReviewer then Some(input.reviewerContract) else input.projectContract
  }

  predicate ValidAtom(k: Kernel, input: BuildInput, a: Atom) {
    && a.at.lineage == input.lineage
    && IsPositive(a.at.position) && a.at.position <= input.head.position
    && (a.at.position == input.head.position ==> Some(a.at.record) == input.head.record)
    && IsNonNegative(a.at.order) && IsPositive(a.proof.auditSequence)
    && ValidText(a.at.approval) && ValidText(a.proof.auditEvent)
    && k.sha(TextBytes(a.text)) == a.textSha
    && ValidPolicy(a)
    && ExpectedContract(input, a.policy) == Some(a.contract)
  }

  predicate ValidHead(head: Head) {
    IsNonNegative(head.position) && (head.position == 0 <==> head.record.None?)
  }

  predicate ValidCoordinates(input: BuildInput) {
    && ValidText(input.lineage.authority) && ValidText(input.lineage.organization) && ValidText(input.lineage.state)
    && input.head.lineage == input.lineage && ValidHead(input.head)
  }

  ghost predicate ValidAtoms(k: Kernel, input: BuildInput) {
    (forall a :: a in input.atoms ==> ValidAtom(k, input, a)) && DistinctAtoms(input.atoms)
  }

  /** assertAtom on every atom, and no atom identity twice. */
  method CheckAtoms(k: Kernel, input: BuildInput) returns (error: Option<BuildError>)
    ensures error.None? <==> ValidAtoms(k, input)
    ensures error.Some? ==> error.value == InvalidAtom || error.value == DuplicateAtom
  {
    var seen: set<Digest> := {};
    for i := 0 to |input.atoms|
      invariant forall a :: a in input.atoms[..i] ==> ValidAtom(k, input, a)
      invariant forall id :: id in seen <==> exists j :: 0 <= j < i && input.atoms[j].at.atomId == id
      invariant forall m, n :: 0 <= m < n < i ==> input.atoms[m].at.atomId != input.atoms[n].at.atomId
    {
      var a := input.atoms[i];
      if !ValidAtom(k, input, a) { return Some(InvalidAtom); }
      if a.at.atomId in seen {
        var j :| 0 <= j < i && input.atoms[j].at.atomId == a.at.atomId;
        assert Map(IdOf(), input.atoms)[j] == Map(IdOf(), input.atoms)[i];
        return Some(DuplicateAtom);
      }
      seen := seen + {a.at.atomId};
    }
    return None;
  }

  function SegmentIdOf(k: Kernel, lineage: Lineage): Atom -> Digest {
    (a: Atom) => k.sha(SegmentIdentity(lineage, TupleOf(a)))
  }

  function PostingCount(k: Kernel): Atom -> int { (a: Atom) => |CountsOf(k, a)| }

  function SegmentIds(k: Kernel, lineage: Lineage, atoms: seq<Atom>): set<Digest> {
    set a | a in atoms :: SegmentIdOf(k, lineage)(a)
  }

  function ByteLength(text: Text): nat { Utf8.ByteLength(text) }

  /** The digest of the atom's segment identity can be taken. */
  predicate Identifiable(lineage: Lineage, tuple: PolicyTuple) { ScalarLineage(lineage) && ScalarTuple(tuple) }

  /** Within the four limits, in segments that have an identity, and of text the analyzer takes. */
  ghost predicate WithinBudget(k: Kernel, input: BuildInput) {
    && |input.atoms| <= MAXIMUM_ATOMS
    && (forall a :: a in input.atoms ==> Admissible(k, input.lineage, a))
    && Sum(PostingCount(k), input.atoms) <= MAXIMUM_POSTINGS
    && |SegmentIds(k, input.lineage, input.atoms)| <= MAXIMUM_SEGMENTS
  }

  predicate Admissible(k: Kernel, lineage: Lineage, a: Atom) {
    ByteLength(a.text) <= MAXIMUM_ATOM_TEXT_BYTES && Identifiable(lineage, TupleOf(a)) && k.normal(a.text)
  }

  ghost predicate Exceeded(k: Kernel, input: BuildInput, excess: Excess) {
    match excess
    case TooManyAtoms => |input.atoms| > MAXIMUM_ATOMS
    case TextTooLong => exists a :: a in input.atoms && ByteLength(a.text) > MAXIMUM_ATOM_TEXT_BYTES
    case NameNotScalar => exists a :: a in input.atoms && !Identifiable(input.lineage, TupleOf(a))
    case TextNotNormal => exists a :: a in input.atoms && !k.normal(a.text)
    case TooManyPostings => Sum(PostingCount(k), input.atoms) > MAXIMUM_POSTINGS
    case TooManySegments => |SegmentIds(k, input.lineage, input.atoms)| > MAXIMUM_SEGMENTS
  }

  /** What is wrong with one atom, if anything. */
  function TextExcess(k: Kernel, lineage: Lineage, a: Atom): (excess: Option<Excess>)
    ensures excess.None? <==> Admissible(k, lineage, a)
    ensures excess.Some? ==> excess.value in {TextTooLong, NameNotScalar, TextNotNormal}
  {
    if ByteLength(a.text) > MAXIMUM_ATOM_TEXT_BYTES then Some(TextTooLong)
    else if !Identifiable(lineage, TupleOf(a)) then Some(NameNotScalar)
    else if !k.normal(a.text) then Some(TextNotNormal)
    else None
  }

  lemma ExcessNamed(k: Kernel, input: BuildInput, a: Atom)
    requires a in input.atoms && TextExcess(k, input.lineage, a).Some?
    ensures Exceeded(k, input, TextExcess(k, input.lineage, a).value) && !WithinBudget(k, input)
  {
  }

  /** The segments and postings of admissible atoms. */
  ghost predicate Counted(k: Kernel, lineage: Lineage, atoms: seq<Atom>, segments: set<Digest>, postings: int) {
    && (forall a :: a in atoms ==> Admissible(k, lineage, a))
    && segments == SegmentIds(k, lineage, atoms) && postings == Sum(PostingCount(k), atoms)
  }

  lemma CountedStep(k: Kernel, lineage: Lineage, atoms: seq<Atom>, i: nat, segments: set<Digest>, postings: int)
    requires i < |atoms| && Counted(k, lineage, atoms[..i], segments, postings) && Admissible(k, lineage, atoms[i])
    ensures Counted(k, lineage, atoms[..i + 1], segments + {SegmentIdOf(k, lineage)(atoms[i])}, postings + |CountsOf(k, atoms[i])|)
  {
    assert atoms[..i + 1] == atoms[..i] + [atoms[i]];
    SumStep(PostingCount(k), atoms, i);
  }

  /** A refusal names what the atoms really exceed; without one they are within the whole budget. */
  method CheckBudget(k: Kernel, input: BuildInput) returns (excess: Option<Excess>)
    ensures excess.None? <==> WithinBudget(k, input)
    ensures excess.Some? ==> Exceeded(k, input, excess.value)
  {
    if |input.atoms| > MAXIMUM_ATOMS { return Some(TooManyAtoms); }
    var segments: set<Digest> := {};
    var postings := 0;
    for i := 0 to |input.atoms|
      invariant Counted(k, input.lineage, input.atoms[..i], segments, postings) && postings <= MAXIMUM_POSTINGS
    {
      excess := TextExcess(k, input.lineage, input.atoms[i]);
      if excess.Some? {
        ExcessNamed(k, input, input.atoms[i]);
        return;
      }
      CountedStep(k, input.lineage, input.atoms, i, segments, postings);
      segments := segments + {SegmentIdOf(k, input.lineage)(input.atoms[i])};
      postings := postings + |CountsOf(k, input.atoms[i])|;
      if postings > MAXIMUM_POSTINGS {
        MorePostings(k, input.atoms, i + 1);
        return Some(TooManyPostings);
      }
    }
    assert input.atoms[..|input.atoms|] == input.atoms;
    if |segments| > MAXIMUM_SEGMENTS { return Some(TooManySegments); }
    return None;
  }

  lemma MorePostings(k: Kernel, atoms: seq<Atom>, i: nat)
    requires i <= |atoms|
    ensures Sum(PostingCount(k), atoms) >= Sum(PostingCount(k), atoms[..i])
  {
    assert atoms == atoms[..i] + atoms[i..];
    SumConcat(PostingCount(k), atoms[..i], atoms[i..]);
    SumPositive(PostingCount(k), atoms[i..]);
  }

  // ---------------------------------------------------------------- grouping

  datatype AtomGroup = AtomGroup(tuple: PolicyTuple, atoms: seq<Atom>)

  function InSegment(k: Kernel, lineage: Lineage, id: Digest): Atom -> bool {
    (a: Atom) => SegmentIdOf(k, lineage)(a) == id
  }

  /** Every group holds the atoms of its segment in input order, under their policy tuple. */
  ghost predicate GroupsOf(k: Kernel, lineage: Lineage, groups: map<Digest, AtomGroup>, order: seq<Digest>, atoms: seq<Atom>) {
    && Distinct(order)
    && (forall id :: id in order <==> id in groups)
    && (forall id :: id in groups <==> id in SegmentIds(k, lineage, atoms))
    && (forall id :: id in groups ==> GroupIs(k, lineage, groups[id], id, atoms))
  }

  ghost predicate GroupIs(k: Kernel, lineage: Lineage, group: AtomGroup, id: Digest, atoms: seq<Atom>) {
    group.atoms == Filter(InSegment(k, lineage, id), atoms) && k.sha(SegmentIdentity(lineage, group.tuple)) == id
  }

  lemma GroupGrows(k: Kernel, lineage: Lineage, id: Digest, atoms: seq<Atom>, a: Atom)
    ensures Filter(InSegment(k, lineage, id), atoms + [a])
      == Filter(InSegment(k, lineage, id), atoms) + if SegmentIdOf(k, lineage)(a) == id then [a] else []
    ensures id !in SegmentIds(k, lineage, atoms) ==> Filter(InSegment(k, lineage, id), atoms) == []
  {
    FilterConcat(InSegment(k, lineage, id), atoms, [a]);
    FilterOne(InSegment(k, lineage, id), a);
    if id !in SegmentIds(k, lineage, atoms) { FilterNone(InSegment(k, lineage, id), atoms); }
  }

  function AddAtom(groups: map<Digest, AtomGroup>, id: Digest, a: Atom): map<Digest, AtomGroup> {
    if id in groups then groups[id := AtomGroup(groups[id].tuple, groups[id].atoms + [a])]
    else groups[id := AtomGroup(TupleOf(a), [a])]
  }

  lemma GroupStep(k: Kernel, lineage: Lineage, groups: map<Digest, AtomGroup>, order: seq<Digest>, atoms: seq<Atom>, a: Atom)
    requires GroupsOf(k, lineage, groups, order, atoms)
    ensures
      var id := SegmentIdOf(k, lineage)(a);
      GroupsOf(k, lineage, AddAtom(groups, id, a), if id in groups then order else order + [id], atoms + [a])
  {
    var id := SegmentIdOf(k, lineage)(a);
    var after := AddAtom(groups, id, a);
    assert SegmentIds(k, lineage, atoms + [a]) == SegmentIds(k, lineage, atoms) + {id};
    forall other | other in after ensures GroupIs(k, lineage, after[other], other, atoms + [a]) {
      GroupGrows(k, lineage, other, atoms, a);
      if other in groups { assert GroupIs(k, lineage, groups[other], other, atoms); }
    }
  }

  method GroupAtoms(k: Kernel, lineage: Lineage, atoms: seq<Atom>) returns (groups: map<Digest, AtomGroup>, order: seq<Digest>)
    ensures GroupsOf(k, lineage, groups, order, atoms)
  {
    groups, order := map[], [];
    for i := 0 to |atoms|
      invariant GroupsOf(k, lineage, groups, order, atoms[..i])
    {
      assert atoms[..i + 1] == atoms[..i] + [atoms[i]];
      GroupStep(k, lineage, groups, order, atoms[..i], atoms[i]);
      var id := SegmentIdOf(k, lineage)(atoms[i]);
      if id !in groups { order := order + [id]; }
      groups := AddAtom(groups, id, atoms[i]);
    }
    assert atoms[..|atoms|] == atoms;
  }

  // ---------------------------------------------------------------- tables

  /** A table with unique keys: its rows in insertion order. */
  ghost predicate Unique<R>(keys: seq<R -> Key>, rows: seq<R>) {
    forall key :: key in keys ==> Distinct(Map(key, rows))
  }

  predicate Conflicts<R>(keys: seq<R -> Key>, table: seq<R>, row: R) {
    exists m, i | 0 <= m < |keys| && 0 <= i < |table| :: keys[m](table[i]) == keys[m](row)
  }

  lemma ConflictStep<R>(keys: seq<R -> Key>, rows: seq<R>, i: nat)
    requires i < |rows| && Unique(keys, rows[..i])
    ensures Conflicts(keys, rows[..i], rows[i]) ==> !Unique(keys, rows)
    ensures !Conflicts(keys, rows[..i], rows[i]) ==> Unique(keys, rows[..i + 1])
  {
    if Conflicts(keys, rows[..i], rows[i]) {
      var m, j :| 0 <= m < |keys| && 0 <= j < |rows[..i]| && keys[m](rows[..i][j]) == keys[m](rows[i]);
      assert Map(keys[m], rows)[j] == Map(keys[m], rows)[i];
      assert keys[m] in keys;
    } else {
      assert rows[..i + 1] == rows[..i] + [rows[i]];
      forall key | key in keys ensures Distinct(Map(key, rows[..i + 1])) {
        var m :| 0 <= m < |keys| && keys[m] == key;
        assert Map(key, rows[..i + 1]) == Map(key, rows[..i]) + [key(rows[i])];
        forall j | 0 <= j < i ensures Map(key, rows[..i])[j] != key(rows[i]) {
          assert keys[m](rows[..i][j]) != keys[m](rows[i]);
        }
      }
    }
  }

  /** What a table takes: rows that each pass its CHECK constraints, with no key twice. */
  ghost predicate Accepts<R>(keys: seq<R -> Key>, check: R -> bool, rows: seq<R>) {
    Unique(keys, rows) && forall row :: row in rows ==> check(row)
  }

  /** Inserts the rows one by one; one that fails a check or repeats a key refuses the whole transaction. */
  method InsertRows<R>(keys: seq<R -> Key>, check: R -> bool, rows: seq<R>) returns (ok: bool, table: seq<R>)
    ensures ok <==> Accepts(keys, check, rows)
    ensures ok ==> table == rows
  {
    table := [];
    for i := 0 to |rows|
      invariant table == rows[..i]
      invariant Unique(keys, rows[..i]) && forall row :: row in rows[..i] ==> check(row)
    {
      ConflictStep(keys, rows, i);
      if !check(rows[i]) || Conflicts(keys, table, rows[i]) { return false, table; }
      table := table + [rows[i]];
    }
    assert rows[..|rows|] == rows;
    return true, table;
  }

  function FactId(): FactRow -> Key { (f: FactRow) => [f.at.atomId] }
  function FactPlace(): FactRow -> Key { (f: FactRow) => [f.at.position, f.at.order] }
  function FactSignal(): FactRow -> Key { (f: FactRow) => [f.at.position, f.at.signal] }
  function ContentId(): ContentRow -> Key { (c: ContentRow) => [c.atomId] }
  function ContentPlace(): ContentRow -> Key { (c: ContentRow) => [c.position, c.order] }
  function DocumentId(): DocumentRow -> Key { (d: DocumentRow) => [d.atomId] }
  function DocumentPlace(): DocumentRow -> Key { (d: DocumentRow) => [d.position, d.order] }

  // The CHECK constraints of the three planes.
  function FactCheck(): FactRow -> bool {
    (f: FactRow) => f.at.position > 0 && f.at.order >= 0 && f.policy != UnsupportedPolicy && f.proof.auditSequence > 0
  }
  function ContentCheck(): ContentRow -> bool { (c: ContentRow) => c.position > 0 && c.order >= 0 }
  function DocumentCheck(): DocumentRow -> bool { (d: DocumentRow) => d.position > 0 && d.order >= 0 }
  function PostingCheck(): PostingRow -> bool { (p: PostingRow) => p.count > 0 }

  /** That of the metadata row, on the policy of the segment. */
  predicate TupleCheck(tuple: PolicyTuple) {
    match tuple.policy
    case RestrictedReviewer => tuple.principal.Some? && tuple.membership.Some? && tuple.audience == []
    case ProjectMembers => tuple.principal.None? && tuple.membership.None? && tuple.audience != []
    case UnsupportedPolicy => false
  }

  /** ORDER BY log_position, atom_order, atom_id. */
  function FactKey(): FactRow -> Key { (f: FactRow) => [f.at.position, f.at.order, f.at.atomId] }
  function ContentKey(): ContentRow -> Key { (c: ContentRow) => [c.position, c.order, c.atomId] }
  function DocumentKey(): DocumentRow -> Key { (d: DocumentRow) => [d.position, d.order, d.atomId] }

  /** ORDER BY the term's bytes, atom_id; -1 ends a term before any longer one. */
  function PostingKey(): PostingRow -> Key { (p: PostingRow) => p.term + [-1, p.atomId] }

  /** What facts.transaction, content.transaction and lexical.transaction accept. */
  ghost predicate Storable(k: Kernel, atoms: seq<Atom>) {
    && Accepts([FactId(), FactPlace(), FactSignal()], FactCheck(), Map(FactOfAtom(k), atoms))
    && Accepts([ContentId(), ContentPlace()], ContentCheck(), Map(ContentOfAtom(k), atoms))
    && Accepts([DocumentId(), DocumentPlace()], DocumentCheck(), Map(DocumentOfAtom(k), atoms))
    && Accepts([PostingKey()], PostingCheck(), FlatMap(PostingsOfAtom(k), atoms))
  }

  // ---------------------------------------------------------------- segments

  datatype PlaneMetadata = PlaneMetadata(
    plane: Plane, text: Text, textSha: Digest, organization: Name, segmentId: Digest, tuple: PolicyTuple,
    analyzerContract: Digest, finalized: bool)

  /** One segment directory: three finalized planes and the manifest beside them. */
  datatype SegmentFiles = SegmentFiles(
    metadata: map<Plane, PlaneMetadata>, facts: seq<FactRow>, content: seq<ContentRow>,
    documents: seq<DocumentRow>, postings: seq<PostingRow>, manifest: SegmentManifest)

  /** One generation directory. */
  datatype Tree = Tree(manifest: GenerationManifest, segments: map<Digest, SegmentFiles>)

  function SchemaVersion(plane: Plane): int { if plane == FactsPlane then 3 else 2 }

  /** The text is canonical, has this digest, and binds the plane to the lineage and the frozen schema. */
  predicate BindsPlane(k: Kernel, lineage: Lineage, schema: Digest, plane: Plane, text: Text, textSha: Digest) {
    k.sha(TextBytes(text)) == textSha && k.plane(text) == Some(PlaneBody(plane, lineage, SchemaVersion(plane), schema))
  }

  predicate ValidPlane(k: Kernel, input: BuildInput, plane: Plane) {
    plane in input.planes && plane in input.baseline && input.planes[plane].schema == input.baseline[plane]
    && BindsPlane(k, input.lineage, input.baseline[plane], plane, input.planes[plane].text, input.planes[plane].textSha)
  }

  predicate ValidPlanes(k: Kernel, input: BuildInput) {
    ValidPlane(k, input, FactsPlane) && ValidPlane(k, input, ContentPlane) && ValidPlane(k, input, LexicalPlane)
  }

  function MetadataOf(input: BuildInput, id: Digest, tuple: PolicyTuple, plane: Plane): PlaneMetadata
    requires plane in input.planes
  {
    PlaneMetadata(plane, input.planes[plane].text, input.planes[plane].textSha, input.lineage.organization, id, tuple, input.analyzer.contract, true)
  }

  function ManifestOf(k: Kernel, id: Digest, tuple: PolicyTuple, atoms: seq<Atom>): SegmentManifest {
    var facts := Sort(FactKey(), Map(FactOfAtom(k), atoms));
    var content := Sort(ContentKey(), Map(ContentOfAtom(k), atoms));
    var documents := Sort(DocumentKey(), Map(DocumentOfAtom(k), atoms));
    var postings := Sort(PostingKey(), FlatMap(PostingsOfAtom(k), atoms));
    SegmentManifest(id, tuple, k.sha(FactsRoot(id, facts)), k.sha(ContentRoot(id, content)),
                    k.sha(LexicalRoot(id, documents, postings)), |facts|, |content|, |documents|, |postings|)
  }

  function FilesOf(k: Kernel, input: BuildInput, id: Digest, tuple: PolicyTuple, atoms: seq<Atom>): SegmentFiles
    requires ValidPlanes(k, input)
  {
    SegmentFiles(
      map[FactsPlane := MetadataOf(input, id, tuple, FactsPlane), ContentPlane := MetadataOf(input, id, tuple, ContentPlane),
          LexicalPlane := MetadataOf(input, id, tuple, LexicalPlane)],
      Map(FactOfAtom(k), atoms), Map(ContentOfAtom(k), atoms), Map(DocumentOfAtom(k), atoms), FlatMap(PostingsOfAtom(k), atoms),
      ManifestOf(k, id, tuple, atoms))
  }

  function EntryFor(k: Kernel, manifest: SegmentManifest): SegmentEntry {
    SegmentEntry(manifest.segmentId, k.sha(SegmentManifestText(manifest)), manifest.factsRoot, manifest.contentRoot, manifest.lexicalRoot)
  }

  /** The rows one loop binds and inserts, atom by atom. */
  method PostingRows(k: Kernel, atoms: seq<Atom>) returns (rows: seq<PostingRow>)
    ensures rows == FlatMap(PostingsOfAtom(k), atoms)
  {
    rows := [];
    for i := 0 to |atoms|
      invariant rows == FlatMap(PostingsOfAtom(k), atoms[..i])
    {
      var more := AtomPostings(k, atoms[i]);
      FlatMapStep(PostingsOfAtom(k), atoms, i);
      rows := rows + more;
    }
    assert atoms[..|atoms|] == atoms;
  }

  method AtomPostings(k: Kernel, a: Atom) returns (rows: seq<PostingRow>)
    ensures rows == PostingsOf(k, a)
  {
    rows := [];
    var counts := CountsOf(k, a);
    for j := 0 to |counts|
      invariant |rows| == j && forall i :: 0 <= i < j ==> rows[i] == Posting(a.at.atomId)(counts[i])
    {
      rows := rows + [PostingRow(counts[j].term, a.at.atomId, counts[j].count)];
    }
  }

  /** The digests of an atom's content and provenance bindings can be taken. */
  predicate Bindable(a: Atom) {
    ScalarLineage(a.at.lineage) && Scalar(a.at.approval) && Scalar(a.proof.auditEvent)
    && ScalarTuple(TupleOf(a)) && ScalarIds(OrEmpty(a.association))
  }

  predicate AllBindable(atoms: seq<Atom>) { forall i | 0 <= i < |atoms| :: Bindable(atoms[i]) }

  /** One segment can be written of these atoms. */
  ghost predicate Segmentable(k: Kernel, atoms: seq<Atom>) { AllBindable(atoms) && Storable(k, atoms) }

  method BuildSegment(k: Kernel, input: BuildInput, group: AtomGroup) returns (r: Result<SegmentFiles, BuildError>)
    ensures r.Success? <==>
      Identifiable(input.lineage, group.tuple) && ValidPlanes(k, input) && TupleCheck(group.tuple) && Segmentable(k, group.atoms)
    ensures r.Success? ==>
      r.value == FilesOf(k, input, k.sha(SegmentIdentity(input.lineage, group.tuple)), group.tuple, group.atoms)
  {
    if !Identifiable(input.lineage, group.tuple) { return Failure(NotDigestible); }
    var id := k.sha(SegmentIdentity(input.lineage, group.tuple));
    if !ValidPlanes(k, input) { return Failure(InvalidPlane); }
    if !TupleCheck(group.tuple) { return Failure(RowConflict); }
    if !AllBindable(group.atoms) { return Failure(NotDigestible); }
    var ok, facts := InsertRows([FactId(), FactPlace(), FactSignal()], FactCheck(), Map(FactOfAtom(k), group.atoms));
    if !ok { return Failure(RowConflict); }
    var content;
    ok, content := InsertRows([ContentId(), ContentPlace()], ContentCheck(), Map(ContentOfAtom(k), group.atoms));
    if !ok { return Failure(RowConflict); }
    var documents;
    ok, documents := InsertRows([DocumentId(), DocumentPlace()], DocumentCheck(), Map(DocumentOfAtom(k), group.atoms));
    if !ok { return Failure(RowConflict); }
    var rows := PostingRows(k, group.atoms);
    var postings;
    ok, postings := InsertRows([PostingKey()], PostingCheck(), rows);
    if !ok { return Failure(RowConflict); }
    var factRows, contentRows := Sort(FactKey(), facts), Sort(ContentKey(), content);
    var documentRows, postingRows := Sort(DocumentKey(), documents), Sort(PostingKey(), postings);
    var manifest := SegmentManifest(
      id, group.tuple, k.sha(FactsRoot(id, factRows)), k.sha(ContentRoot(id, contentRows)),
      k.sha(LexicalRoot(id, documentRows, postingRows)), |factRows|, |contentRows|, |documentRows|, |postingRows|);
    var metadata := map[
      FactsPlane := MetadataOf(input, id, group.tuple, FactsPlane),
      ContentPlane := MetadataOf(input, id, group.tuple, ContentPlane),
      LexicalPlane := MetadataOf(input, id, group.tuple, LexicalPlane)];
    return Success(SegmentFiles(metadata, facts, content, documents, postings, manifest));
  }
}
