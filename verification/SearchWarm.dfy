/** Warming: everything is checked again before it is searched. */
module SearchWarm {
  import opened Wrappers
  import opened Sequences
  import opened Sorting
  import opened SearchModel
  import opened SearchIndex
  import opened SearchBuild
  import opened SearchGeneration

  /** The published pointer to a generation. */
  datatype Active = Active(generationId: Digest, manifestSha: Digest, retrievalContract: Digest, head: Head)

  datatype WarmError = InvalidManifest | InvalidSegment | RepeatedAtom | OverBudget

  // ---------------------------------------------------------------- one segment

  function PolicyContract(policies: seq<PolicyStamp>, policy: PolicyId): Option<Digest> {
    if policies == [] then None
    else if policies[0].policy == policy then Some(policies[0].contract)
    else PolicyContract(policies[1..], policy)
  }

  predicate ValidTuple(tuple: PolicyTuple) {
    match tuple.policy
    case RestrictedReviewer => tuple.principal.Some? && tuple.membership.Some?
    case ProjectMembers => tuple.principal.None? && tuple.membership.None? && CanonicalIds(tuple.audience, true)
    case UnsupportedPolicy => false
  }

  predicate ValidManifest(m: SegmentManifest) {
    ValidTuple(m.tuple) && ScalarTuple(m.tuple)
    && IsNonNegative(m.factCount) && IsNonNegative(m.contentCount) && IsNonNegative(m.documentCount) && IsNonNegative(m.postingCount)
  }

  predicate ValidMetadata(k: Kernel, baseline: map<Plane, Digest>, body: GenerationBody, files: SegmentFiles, plane: Plane) {
    plane in baseline && plane in files.metadata
    && BindsPlane(k, body.lineage, baseline[plane], plane, files.metadata[plane].text, files.metadata[plane].textSha)
    && files.metadata[plane] == PlaneMetadata(
         plane, files.metadata[plane].text, files.metadata[plane].textSha, body.lineage.organization,
         files.manifest.segmentId, files.manifest.tuple, body.analyzer.contract, true)
  }

  /** The manifest is the declared one, under a policy and an identity the generation binds. */
  predicate ValidHeader(k: Kernel, baseline: map<Plane, Digest>, body: GenerationBody, entry: SegmentEntry, files: SegmentFiles) {
    var m := files.manifest;
    && ValidManifest(m)
    && EntryFor(k, m) == entry
    && PolicyContract(body.policies, m.tuple.policy) == Some(m.tuple.contract)
    && k.sha(SegmentIdentity(body.lineage, m.tuple)) == m.segmentId
    && ValidMetadata(k, baseline, body, files, FactsPlane)
    && ValidMetadata(k, baseline, body, files, ContentPlane)
    && ValidMetadata(k, baseline, body, files, LexicalPlane)
  }

  /** The tables as read: ORDER BY position, order and identity, postings by term and identity. */
  datatype Read = Read(facts: seq<FactRow>, content: seq<ContentRow>, documents: seq<DocumentRow>, postings: seq<PostingRow>)

  function ReadOf(files: SegmentFiles): Read {
    Read(Sort(FactKey(), files.facts), Sort(ContentKey(), files.content),
         Sort(DocumentKey(), files.documents), Sort(PostingKey(), files.postings))
  }

  predicate ValidRoots(k: Kernel, m: SegmentManifest, read: Read) {
    && |read.facts| == m.factCount && |read.content| == m.contentCount
    && |read.documents| == m.documentCount && |read.postings| == m.postingCount
    && k.sha(FactsRoot(m.segmentId, read.facts)) == m.factsRoot
    && k.sha(ContentRoot(m.segmentId, read.content)) == m.contentRoot
    && k.sha(LexicalRoot(m.segmentId, read.documents, read.postings)) == m.lexicalRoot
  }

  function ContentAtomId(): ContentRow -> Digest { (c: ContentRow) => c.atomId }
  function DocumentAtomId(): DocumentRow -> Digest { (d: DocumentRow) => d.atomId }
  function ContentByAtom(rows: seq<ContentRow>): map<Digest, ContentRow> { ByAtom(ContentAtomId(), rows) }
  function DocumentByAtom(rows: seq<DocumentRow>): map<Digest, DocumentRow> { ByAtom(DocumentAtomId(), rows) }

  function TupleOfFact(f: FactRow): PolicyTuple { PolicyTuple(f.policy, f.contract, f.principal, f.membership, f.audience) }

  predicate SameContent(k: Kernel, fact: FactRow, item: ContentRow) {
    && item.position == fact.at.position && item.record == fact.at.record && item.order == fact.at.order
    && item.kind == fact.at.kind
    && item.textSha == k.sha(TextBytes(item.text))
    && item.contentBinding == fact.contentBinding && item.provenanceBinding == fact.provenanceBinding
    && k.sha(ContentBinding(fact.at, item.textSha)) == fact.contentBinding
  }

  predicate SameDocument(fact: FactRow, document: DocumentRow) {
    && document.position == fact.at.position && document.order == fact.at.order
    && document.contentBinding == fact.contentBinding
  }

  function FactProvenance(k: Kernel, fact: FactRow): Digest {
    k.sha(ProvenanceBinding(fact.at.lineage, fact.at.position, fact.at.record, fact.at.envelope, fact.at.approval,
                            TupleOfFact(fact), fact.proof, fact.association))
  }

  /** One fact against its content row, its document row and its bindings. */
  predicate ValidFact(
      k: Kernel, body: GenerationBody, tuple: PolicyTuple, fact: FactRow,
      content: map<Digest, ContentRow>, documents: map<Digest, DocumentRow>)
  {
    var required := fact.policy == ProjectMembers;
    && CanonicalIds(fact.association, required) && CanonicalIds(fact.audience, required)
    && fact.at.atomId in content && fact.at.atomId in documents
    && fact.at.lineage == body.lineage
    && TupleOfFact(fact) == tuple
    && SameContent(k, fact, content[fact.at.atomId]) && SameDocument(fact, documents[fact.at.atomId])
    && FactProvenance(k, fact) == fact.provenanceBinding
  }

  ghost predicate ValidRows(k: Kernel, body: GenerationBody, tuple: PolicyTuple, read: Read) {
    var content, documents := ContentByAtom(read.content), DocumentByAtom(read.documents);
    && |content| == |read.facts| && |documents| == |read.facts|
    && forall f :: f in read.facts ==> ValidFact(k, body, tuple, f, content, documents)
  }

  ghost predicate ValidSegment(k: Kernel, baseline: map<Plane, Digest>, body: GenerationBody, entry: SegmentEntry, files: SegmentFiles) {
    && ValidHeader(k, baseline, body, entry, files)
    && ValidRoots(k, files.manifest, ReadOf(files))
    && ValidRows(k, body, files.manifest.tuple, ReadOf(files))
  }

  function RowsOf(files: SegmentFiles): SegmentRows {
    var read := ReadOf(files);
    SegmentRows(files.manifest, read.facts, ContentByAtom(read.content), read.postings,
                StatisticsOf(read.postings, |read.facts|), LengthsOf(read.postings))
  }

  /** readAndValidateReadableSearchSegment: accepted exactly when every check holds. */
  method ReadSegment(k: Kernel, baseline: map<Plane, Digest>, body: GenerationBody, entry: SegmentEntry, files: SegmentFiles)
    returns (r: Result<SegmentRows, WarmError>)
    ensures r.Success? <==> ValidSegment(k, baseline, body, entry, files)
    ensures r.Success? ==> r.value == RowsOf(files)
  {
    if !ValidHeader(k, baseline, body, entry, files) { return Failure(InvalidSegment); }
    var read := ReadOf(files);
    if !ValidRoots(k, files.manifest, read) { return Failure(InvalidSegment); }
    var content, documents := ContentByAtom(read.content), DocumentByAtom(read.documents);
    if |content| != |read.facts| || |documents| != |read.facts| { return Failure(InvalidSegment); }
    for i := 0 to |read.facts|
      invariant forall j :: 0 <= j < i ==> ValidFact(k, body, files.manifest.tuple, read.facts[j], content, documents)
    {
      if !ValidFact(k, body, files.manifest.tuple, read.facts[i], content, documents) {
        assert read.facts[i] in read.facts;
        return Failure(InvalidSegment);
      }
    }
    var statistics, lengths := SegmentStatistics(read.postings, |read.facts|);
    return Success(SegmentRows(files.manifest, read.facts, content, read.postings, statistics, lengths));
  }

  // ---------------------------------------------------------------- the whole directory

  predicate ValidPolicies(policies: seq<PolicyStamp>) {
    && 1 <= |policies| <= 2 && policies[0].policy == RestrictedReviewer
    && (|policies| == 2 ==> policies[1].policy == ProjectMembers)
  }

  /** The manifest is canonical JSON, so all its names are scalar. */
  predicate ScalarBody(body: GenerationBody) {
    ScalarLineage(body.lineage) && ScalarLineage(body.head.lineage)
    && Scalar(body.sourceRevision) && ScalarAnalyzer(body.analyzer) && Scalar(body.sqlite)
  }

  predicate ValidGeneration(k: Kernel, active: Active, tree: Tree) {
    var m := tree.manifest;
    && ValidText(m.body.lineage.authority) && ValidText(m.body.lineage.organization) && ValidText(m.body.lineage.state)
    && ValidHead(m.body.head) && ScalarBody(m.body)
    && ValidPolicies(m.body.policies)
    && k.sha(GenerationIdentity(m.body)) == m.generationId
    && k.sha(GenerationText(m)) == active.manifestSha
    && m.generationId == active.generationId
    && m.body.retrievalContract == active.retrievalContract
    && m.body.head == active.head
    && RootsOf(k, m.body.segments) == m.body.roots
  }

  /** The directories under segments/ are exactly the declared ones, each declared once. */
  ghost predicate DeclaresSegments(tree: Tree) {
    var declared := DeclaredIds(tree.manifest.body);
    Distinct(declared) && forall id :: id in declared <==> id in tree.segments
  }

  method CheckDeclared(tree: Tree) returns (ok: bool)
    ensures ok <==> DeclaresSegments(tree)
  {
    var declared := DeclaredIds(tree.manifest.body);
    var seen: set<Digest> := {};
    for i := 0 to |declared|
      invariant forall id :: id in seen <==> id in declared[..i]
      invariant Distinct(declared[..i])
    {
      var id := declared[i];
      assert id in declared;
      if id in seen {
        var j :| 0 <= j < i && declared[..i][j] == id;
        assert declared[j] == declared[i];
        return false;
      }
      if id !in tree.segments { return false; }
      PrefixGrows(declared, i);
      DistinctConcat(declared[..i], [id]);
      seen := seen + {id};
    }
    assert declared[..|declared|] == declared;
    assert DeclaresSegments(tree) ==> tree.segments.Keys == seen by {
      if DeclaresSegments(tree) {
        forall id ensures id in tree.segments.Keys <==> id in seen { assert id in declared <==> id in tree.segments; }
      }
    }
    if tree.segments.Keys != seen { return false; }
    return true;
  }

  function FactRowId(): FactRow -> Digest { (f: FactRow) => f.at.atomId }

  function IdsIn(): SegmentRows -> seq<Digest> { (s: SegmentRows) => Map(FactRowId(), s.facts) }

  function PostingsIn(): SegmentRows -> int { (s: SegmentRows) => |s.postings| }

  predicate ShortTexts(content: map<Digest, ContentRow>) {
    forall id | id in content :: ByteLength(content[id].text) <= MAXIMUM_ATOM_TEXT_BYTES
  }

  ghost predicate RowsWithinBudget(segments: seq<SegmentRows>) {
    && |FlatMap(IdsIn(), segments)| <= MAXIMUM_ATOMS
    && |segments| <= MAXIMUM_SEGMENTS
    && Sum(PostingsIn(), segments) <= MAXIMUM_POSTINGS
    && forall s :: s in segments ==> ShortTexts(s.content)
  }

  function RowsOfTree(tree: Tree, entries: seq<SegmentEntry>): seq<SegmentRows>
    requires forall i :: 0 <= i < |entries| ==> entries[i].segmentId in tree.segments
    ensures |RowsOfTree(tree, entries)| == |entries|
    ensures forall i :: 0 <= i < |entries| ==> RowsOfTree(tree, entries)[i] == RowsOf(tree.segments[entries[i].segmentId])
  {
    if entries == [] then []
    else
      assert forall i :: 0 <= i < |entries[1..]| ==> entries[1..][i] == entries[i + 1];
      [RowsOf(tree.segments[entries[0].segmentId])] + RowsOfTree(tree, entries[1..])
  }

  ghost predicate AllDeclared(tree: Tree) {
    forall i :: 0 <= i < |tree.manifest.body.segments| ==> tree.manifest.body.segments[i].segmentId in tree.segments
  }

  ghost predicate AllValid(k: Kernel, baseline: map<Plane, Digest>, tree: Tree, n: nat)
    requires AllDeclared(tree) && n <= |tree.manifest.body.segments|
  {
    var entries := tree.manifest.body.segments;
    forall i :: 0 <= i < n ==> ValidSegment(k, baseline, tree.manifest.body, entries[i], tree.segments[entries[i].segmentId])
  }

  /** Everything warming asks of a generation directory. */
  ghost predicate ValidTree(k: Kernel, baseline: map<Plane, Digest>, active: Active, tree: Tree) {
    && ValidGeneration(k, active, tree)
    && DeclaresSegments(tree)
    && AllDeclared(tree)
    && AllValid(k, baseline, tree, |tree.manifest.body.segments|)
    && Distinct(FlatMap(IdsIn(), RowsOfTree(tree, tree.manifest.body.segments)))
    && RowsWithinBudget(RowsOfTree(tree, tree.manifest.body.segments))
  }

  lemma DeclaredIsListed(tree: Tree)
    requires DeclaresSegments(tree)
    ensures AllDeclared(tree)
  {
    var entries, declared := tree.manifest.body.segments, DeclaredIds(tree.manifest.body);
    forall i | 0 <= i < |entries| ensures entries[i].segmentId in tree.segments {
      assert declared[i] == entries[i].segmentId;
      assert declared[i] in declared;
    }
  }

  /** Adds the identities one by one; a repeated one refuses the generation. */
  method AddIds(seen: set<Digest>, ids: seq<Digest>, ghost before: seq<Digest>) returns (ok: bool, after: set<Digest>)
    requires Distinct(before) && forall id :: id in seen <==> id in before
    ensures ok <==> Distinct(before + ids)
    ensures ok ==> forall id :: id in after <==> id in before + ids
  {
    after := seen;
    assert before + ids[..0] == before;
    for i := 0 to |ids|
      invariant Distinct(before + ids[..i])
      invariant forall id :: id in after <==> id in before + ids[..i]
    {
      var id := ids[i];
      PrefixGrows(ids, i);
      assert before + ids[..i + 1] == (before + ids[..i]) + [id];
      if id in after {
        RepeatedId(before, ids, i);
        return false, after;
      }
      DistinctConcat(before + ids[..i], [id]);
      after := after + {id};
    }
    assert ids[..|ids|] == ids;
    return true, after;
  }

  lemma RepeatedId(before: seq<Digest>, ids: seq<Digest>, i: nat)
    requires i < |ids| && ids[i] in before + ids[..i]
    ensures !Distinct(before + ids)
  {
    var all := before + ids;
    var j :| 0 <= j < |before + ids[..i]| && (before + ids[..i])[j] == ids[i];
    assert all[j] == all[|before| + i];
  }

  /**
   * Full validation of one generation directory: the rows are handed out
   * exactly when every check holds.
   */
  method ValidateTree(k: Kernel, baseline: map<Plane, Digest>, active: Active, tree: Tree)
    returns (r: Result<seq<SegmentRows>, WarmError>)
    ensures r.Success? <==> ValidTree(k, baseline, active, tree)
    ensures r.Success? ==> r.value == RowsOfTree(tree, tree.manifest.body.segments)
  {
    if !ValidGeneration(k, active, tree) { return Failure(InvalidManifest); }
    var declared := CheckDeclared(tree);
    if !declared { return Failure(InvalidManifest); }
    DeclaredIsListed(tree);
    var entries := tree.manifest.body.segments;
    ghost var all := RowsOfTree(tree, entries);
    var seenAtoms: set<Digest> := {};
    var validated: seq<SegmentRows> := [];
    for i := 0 to |entries|
      invariant validated == all[..i]
      invariant AllValid(k, baseline, tree, i)
      invariant SeenAtoms(seenAtoms, FlatMap(IdsIn(), all[..i]))
    {
      var next;
      next, seenAtoms := NextSegment(k, baseline, tree, i, seenAtoms);
      if next.Failure? { return Failure(next.error); }
      PrefixGrows(all, i);
      validated := validated + [next.value];
    }
    assert all[..|entries|] == all;
    var within := CheckRowBudget(validated);
    if !within { return Failure(OverBudget); }
    return Success(validated);
  }

  /** Reads and validates one declared segment, and refuses an atom seen before. */
  method NextSegment(k: Kernel, baseline: map<Plane, Digest>, tree: Tree, i: nat, seen: set<Digest>)
    returns (r: Result<SegmentRows, WarmError>, after: set<Digest>)
    requires AllDeclared(tree) && i < |tree.manifest.body.segments| && AllValid(k, baseline, tree, i)
    requires SeenAtoms(seen, FlatMap(IdsIn(), RowsOfTree(tree, tree.manifest.body.segments)[..i]))
    ensures r.Success? ==>
      && r.value == RowsOfTree(tree, tree.manifest.body.segments)[i]
      && AllValid(k, baseline, tree, i + 1)
      && SeenAtoms(after, FlatMap(IdsIn(), RowsOfTree(tree, tree.manifest.body.segments)[..i + 1]))
    ensures r.Failure? ==>
      || !AllValid(k, baseline, tree, |tree.manifest.body.segments|)
      || !Distinct(FlatMap(IdsIn(), RowsOfTree(tree, tree.manifest.body.segments)))
  {
    var entry := tree.manifest.body.segments[i];
    r := ReadSegment(k, baseline, tree.manifest.body, entry, tree.segments[entry.segmentId]);
    after := seen;
    if r.Success? {
      var ok;
      ok, after := AddSegmentIds(seen, RowsOfTree(tree, tree.manifest.body.segments), i, r.value);
      if !ok { r := Failure(RepeatedAtom); }
    }
  }

  ghost predicate SeenAtoms(seen: set<Digest>, ids: seq<Digest>) {
    Distinct(ids) && forall id :: id in seen <==> id in ids
  }

  method AddSegmentIds(seen: set<Digest>, ghost all: seq<SegmentRows>, ghost i: nat, rows: SegmentRows) returns (ok: bool, after: set<Digest>)
    requires i < |all| && rows == all[i] && SeenAtoms(seen, FlatMap(IdsIn(), all[..i]))
    ensures ok ==> SeenAtoms(after, FlatMap(IdsIn(), all[..i + 1]))
    ensures !ok ==> !Distinct(FlatMap(IdsIn(), all))
  {
    FlatMapStep(IdsIn(), all, i);
    ok, after := AddIds(seen, Map(FactRowId(), rows.facts), FlatMap(IdsIn(), all[..i]));
    PrefixDistinct(all, i + 1);
  }

  lemma PrefixDistinct(segments: seq<SegmentRows>, i: nat)
    requires i <= |segments|
    ensures Distinct(FlatMap(IdsIn(), segments)) ==> Distinct(FlatMap(IdsIn(), segments[..i]))
  {
    assert segments == segments[..i] + segments[i..];
    FlatMapConcat(IdsIn(), segments[..i], segments[i..]);
    if Distinct(FlatMap(IdsIn(), segments)) {
      DistinctParts(FlatMap(IdsIn(), segments[..i]), FlatMap(IdsIn(), segments[i..]));
    }
  }

  method CheckRowBudget(segments: seq<SegmentRows>) returns (ok: bool)
    ensures ok <==> RowsWithinBudget(segments)
  {
    var atoms, postings, short := 0, 0, true;
    for i := 0 to |segments|
      invariant atoms == |FlatMap(IdsIn(), segments[..i])|
      invariant postings == Sum(PostingsIn(), segments[..i])
      invariant short <==> forall j :: 0 <= j < i ==> ShortTexts(segments[j].content)
    {
      FlatMapStep(IdsIn(), segments, i);
      SumStep(PostingsIn(), segments, i);
      atoms := atoms + |segments[i].facts|;
      postings := postings + |segments[i].postings|;
      short := short && ShortTexts(segments[i].content);
    }
    assert segments[..|segments|] == segments;
    return atoms <= MAXIMUM_ATOMS && |segments| <= MAXIMUM_SEGMENTS && postings <= MAXIMUM_POSTINGS && short;
  }
}
