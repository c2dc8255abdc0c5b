/**
 * The data of the permission-partitioned search index: atoms, the rows their
 * planes hold, the manifests that bind the rows, and what the engine imports.
 */
module SearchModel {
  import opened Wrappers
  import Json
  import opened Sequences

  // Names and texts are UTF-16 code units, terms UTF-8 bytes. A digest is the
  // number its sixty-four hexadecimal digits write, so that digest order is the
  // byte order of the digest strings. JSON text columns hold the arrays they
  // encode.

  type Digest = int
  type Name = seq<nat>
  type Text = seq<nat>
  type Term = seq<int>

  datatype Kind = Decision | Action | Rationale
  datatype PolicyId = RestrictedReviewer | ProjectMembers | UnsupportedPolicy
  datatype Plane = FactsPlane | ContentPlane | LexicalPlane

  /** authority_id, organization_id and state_lineage_id. */
  datatype Lineage = Lineage(authority: Name, organization: Name, state: Name)

  /** Where an atom comes from in the record log, and its identity there. */
  datatype Coordinates = Coordinates(
    lineage: Lineage, position: int, record: Digest, envelope: Digest, approval: Name,
    atomId: Digest, order: int, signal: Digest, kind: Kind)

  /** Who decided the atom's release, as recorded by the audit log. */
  datatype Proof = Proof(
    auditEvent: Name, auditSequence: int, auditEntry: Digest, providerAction: Digest, authorization: Digest)

  datatype Atom = Atom(
    at: Coordinates, text: Text, textSha: Digest,
    policy: PolicyId, contract: Digest, proof: Proof,
    principal: Option<Name>, membership: Option<Name>,
    audience: Option<seq<Name>>, association: Option<seq<Name>>)

  /** The policy facts all atoms of one segment share. */
  datatype PolicyTuple = PolicyTuple(
    policy: PolicyId, contract: Digest, principal: Option<Name>, membership: Option<Name>, audience: seq<Name>)

  datatype Count = Count(term: Term, count: int)

  datatype Statistics = Statistics(documentCount: int, totalTermCount: int, frequency: map<Term, int>)

  // ---------------------------------------------------------------- rows

  datatype FactRow = FactRow(
    at: Coordinates, policy: PolicyId, contract: Digest, proof: Proof,
    principal: Option<Name>, membership: Option<Name>, audience: seq<Name>, association: seq<Name>,
    contentBinding: Digest, provenanceBinding: Digest)

  datatype ContentRow = ContentRow(
    atomId: Digest, position: int, record: Digest, order: int, kind: Kind,
    text: Text, textSha: Digest, contentBinding: Digest, provenanceBinding: Digest)

  datatype DocumentRow = DocumentRow(atomId: Digest, position: int, order: int, contentBinding: Digest)

  datatype PostingRow = PostingRow(term: Term, atomId: Digest, count: int)

  // ---------------------------------------------------------------- manifests

  datatype SegmentManifest = SegmentManifest(
    segmentId: Digest, tuple: PolicyTuple,
    factsRoot: Digest, contentRoot: Digest, lexicalRoot: Digest,
    factCount: int, contentCount: int, documentCount: int, postingCount: int)

  datatype SegmentEntry = SegmentEntry(
    segmentId: Digest, manifestSha: Digest, factsRoot: Digest, contentRoot: Digest, lexicalRoot: Digest)

  datatype Roots = Roots(facts: Digest, content: Digest, lexical: Digest)

  /** The last record the generation covers. */
  datatype Head = Head(lineage: Lineage, position: int, record: Option<Digest>)

  datatype AnalyzerStamp = AnalyzerStamp(contract: Digest, source: Digest, node: Name, unicode: Name, icu: Name)

  datatype PolicyStamp = PolicyStamp(policy: PolicyId, contract: Digest)

  /** Everything in a generation manifest but its identity. */
  datatype GenerationBody = GenerationBody(
    lineage: Lineage, head: Head, retrievalContract: Digest, policies: seq<PolicyStamp>, inputRoot: Digest,
    sourceRevision: Name, builder: Digest, analyzer: AnalyzerStamp, sqlite: Name,
    roots: Roots, segments: seq<SegmentEntry>)

  datatype GenerationManifest = GenerationManifest(generationId: Digest, body: GenerationBody)

  /** One plane's lineage manifest: the digest of its schema, its text and the digest of that. */
  datatype PlaneManifest = PlaneManifest(schema: Digest, text: Text, textSha: Digest)

  /** What the text of such a manifest says. */
  datatype PlaneBody = PlaneBody(role: Plane, lineage: Lineage, version: int, schema: Digest)

  /** What each digest in the engine is taken of. */
  datatype Preimage =
    | TextBytes(text: Text)
    | SegmentIdentity(lineage: Lineage, tuple: PolicyTuple)
    | ContentBinding(at: Coordinates, textSha: Digest)
    | ProvenanceBinding(
        plineage: Lineage, position: int, record: Digest, envelope: Digest, approval: Name,
        ptuple: PolicyTuple, proof: Proof, association: seq<Name>)
    | FactsRoot(segmentId: Digest, facts: seq<FactRow>)
    | ContentRoot(csegmentId: Digest, content: seq<ContentRow>)
    | LexicalRoot(lsegmentId: Digest, documents: seq<DocumentRow>, postings: seq<PostingRow>)
    | SegmentManifestText(segment: SegmentManifest)
    | GenerationRoot(plane: Plane, segments: seq<SegmentEntry>)
    | InputRoot(ilineage: Lineage, planes: map<Plane, PlaneManifest>, head: Head, atoms: seq<Atom>)
    | GenerationIdentity(body: GenerationBody)
    | GenerationText(generation: GenerationManifest)

  /**
   * What the engine imports: the digest, what a plane's manifest says if its
   * text is canonical JSON, whether text is in NFC (the document analyzer
   * refuses other text), the document and query analyzers and the scorer.
   * `preimage` only says that the digest is injective.
   */
  datatype Kernel = Kernel(
    sha: Preimage -> Digest,
    ghost preimage: Digest -> Preimage,
    plane: Text -> Option<PlaneBody>,
    normal: Text -> bool,
    analyze: (Text, Kind) -> seq<Count>,
    query: Text -> Option<seq<Term>>,
    score: (map<Term, int>, int, seq<Term>, Statistics) -> int)
  {
    /**
     * Digests do not collide, except that in raw text every lone surrogate is
     * digested alike; an analysis counts each of its terms once, and at least
     * once; query terms are unique.
     */
    ghost predicate Valid() {
      && (forall p: Preimage :: (p.TextBytes? ==> Scalar(p.text)) ==> preimage(sha(p)) == p)
      && (forall text, kind :: ProperCounts(analyze(text, kind)))
      && (forall text :: query(text).Some? ==> Distinct(query(text).value))
    }

    lemma ShaInjective(p: Preimage, q: Preimage)
      requires Valid() && sha(p) == sha(q) && !p.TextBytes? && !q.TextBytes?
      ensures p == q
    {
      assert preimage(sha(p)) == p && preimage(sha(q)) == q;
    }
  }

  // ---------------------------------------------------------------- what canonical JSON can print

  const MAXIMUM_SAFE_INTEGER: int := 0x1f_ffff_ffff_ffff

  /** Its surrogates come in pairs; a canonical digest is taken of no other string. */
  predicate Scalar(name: Name) { Json.Scalar(name) }

  predicate ScalarIfAny(name: Option<Name>) { name.Some? ==> Scalar(name.value) }

  predicate ScalarIds(ids: seq<Name>) { forall i | 0 <= i < |ids| :: Scalar(ids[i]) }

  predicate ScalarLineage(lineage: Lineage) { Scalar(lineage.authority) && Scalar(lineage.organization) && Scalar(lineage.state) }

  predicate ScalarTuple(tuple: PolicyTuple) {
    ScalarIfAny(tuple.principal) && ScalarIfAny(tuple.membership) && ScalarIds(tuple.audience)
  }

  predicate ScalarAnalyzer(analyzer: AnalyzerStamp) { Scalar(analyzer.node) && Scalar(analyzer.unicode) && Scalar(analyzer.icu) }

  ghost predicate ProperCounts(counts: seq<Count>) {
    && (forall i :: 0 <= i < |counts| ==> counts[i].count > 0)
    && (forall i, j :: 0 <= i < j < |counts| ==> counts[i].term != counts[j].term)
  }

  // ---------------------------------------------------------------- what an atom becomes

  function OrEmpty(ids: Option<seq<Name>>): seq<Name> { if ids.Some? then ids.value else [] }

  function TupleOf(a: Atom): PolicyTuple {
    PolicyTuple(a.policy, a.contract, a.principal, a.membership, OrEmpty(a.audience))
  }

  function ContentBindingOf(k: Kernel, a: Atom): Digest { k.sha(ContentBinding(a.at, a.textSha)) }

  function ProvenanceBindingOf(k: Kernel, a: Atom): Digest {
    k.sha(ProvenanceBinding(a.at.lineage, a.at.position, a.at.record, a.at.envelope, a.at.approval,
                            TupleOf(a), a.proof, OrEmpty(a.association)))
  }

  function FactOf(k: Kernel, a: Atom): FactRow {
    FactRow(a.at, a.policy, a.contract, a.proof, a.principal, a.membership, OrEmpty(a.audience), OrEmpty(a.association),
            ContentBindingOf(k, a), ProvenanceBindingOf(k, a))
  }

  function ContentOf(k: Kernel, a: Atom): ContentRow {
    ContentRow(a.at.atomId, a.at.position, a.at.record, a.at.order, a.at.kind, a.text, a.textSha,
               ContentBindingOf(k, a), ProvenanceBindingOf(k, a))
  }

  function DocumentOf(k: Kernel, a: Atom): DocumentRow {
    DocumentRow(a.at.atomId, a.at.position, a.at.order, ContentBindingOf(k, a))
  }

  function CountsOf(k: Kernel, a: Atom): seq<Count> { k.analyze(a.text, a.at.kind) }

  function Posting(id: Digest): Count -> PostingRow { (c: Count) => PostingRow(c.term, id, c.count) }

  function PostingsOf(k: Kernel, a: Atom): seq<PostingRow> { Map(Posting(a.at.atomId), CountsOf(k, a)) }

  // The same, as function values.
  function FactOfAtom(k: Kernel): Atom -> FactRow { (a: Atom) => FactOf(k, a) }
  function ContentOfAtom(k: Kernel): Atom -> ContentRow { (a: Atom) => ContentOf(k, a) }
  function DocumentOfAtom(k: Kernel): Atom -> DocumentRow { (a: Atom) => DocumentOf(k, a) }
  function PostingsOfAtom(k: Kernel): Atom -> seq<PostingRow> { (a: Atom) => PostingsOf(k, a) }
  function IdOf(): Atom -> Digest { (a: Atom) => a.at.atomId }

  /** Atom identities are distinct. */
  ghost predicate DistinctAtoms(atoms: seq<Atom>) { Distinct(Map(IdOf(), atoms)) }

  // ---------------------------------------------------------------- readers and requests

  datatype Reader = Reader(principal: Name, membership: Name, projects: Option<seq<Name>>)

  function Grants(reader: Reader): seq<Name> { OrEmpty(reader.projects) }

  /** A reviewer segment is its reviewer's alone; a project segment is read by any current member of its audience. */
  predicate MayRead(reader: Reader, tuple: PolicyTuple) {
    if tuple.policy == RestrictedReviewer then
      tuple.principal == Some(reader.principal) && tuple.membership == Some(reader.membership)
    else
      exists p | p in tuple.audience :: p in Grants(reader)
  }

  datatype Exclusion = Exclusion(records: set<Digest>, policies: set<PolicyId>)

  /** project_id and record_sha256s narrow what is counted; the rest only narrows what is returned. */
  datatype Request = Request(
    reader: Reader, project: Option<Name>, records: Option<set<Digest>>,
    kinds: Option<set<Kind>>, orders: Option<map<Digest, set<int>>>, exclude: Option<Exclusion>)

  predicate InScope(request: Request, association: seq<Name>, record: Digest) {
    && (request.project.Some? ==> request.project.value in association)
    && (request.records.Some? ==> record in request.records.value)
  }

  predicate Wanted(request: Request, kind: Kind, record: Digest, order: int, policy: PolicyId) {
    && (request.kinds.Some? ==> kind in request.kinds.value)
    && (request.orders.Some? ==> record in request.orders.value && order in request.orders.value[record])
    && (request.exclude.Some? ==> record !in request.exclude.value.records && policy !in request.exclude.value.policies)
  }

  datatype Item = Item(
    atomId: Digest, position: int, record: Digest, envelope: Digest, kind: Kind, text: Text,
    policy: PolicyId, order: int, audienceCount: nat)

  datatype Found = Found(items: seq<Item>, truncated: bool)

  datatype SearchError =
    | InvalidReader | InvalidLimit | HandleUnavailable | InvalidQuery | ProjectNotGranted | InconsistentRecord

  function Take<T>(s: seq<T>, n: nat): seq<T> { if |s| <= n then s else s[..n] }

  /** new Map(rows.map(row => [row.atom_id, row])): a later row replaces an earlier one. */
  function ByAtom<R>(id: R -> Digest, rows: seq<R>): map<Digest, R> {
    if rows == [] then map[]
    else ByAtom(id, rows[..|rows| - 1])[id(rows[|rows| - 1]) := rows[|rows| - 1]]
  }

  /** The map has exactly the identities of the rows, each with a row of that identity. */
  lemma {:induction false} ByAtomKeys<R>(id: R -> Digest, rows: seq<R>)
    ensures ByAtom(id, rows).Keys == (set x | x in Map(id, rows))
    ensures forall x :: x in ByAtom(id, rows) ==> x in Map(id, rows)
    ensures forall x :: x in ByAtom(id, rows) ==> exists i :: 0 <= i < |rows| && ByAtom(id, rows)[x] == rows[i] && id(rows[i]) == x
  {
    if rows != [] {
      var init, last := rows[..|rows| - 1], rows[|rows| - 1];
      ByAtomKeys(id, init);
      assert Map(id, rows) == Map(id, init) + [id(last)];
      forall x | x in ByAtom(id, rows) ensures exists i :: 0 <= i < |rows| && ByAtom(id, rows)[x] == rows[i] && id(rows[i]) == x {
        if x == id(last) {
          assert ByAtom(id, rows)[x] == rows[|rows| - 1];
        } else {
          var i :| 0 <= i < |init| && ByAtom(id, init)[x] == init[i] && id(init[i]) == x;
          assert rows[i] == init[i];
        }
      }
    }
  }

  /** With distinct identities the map holds every row under its own. */
  lemma ByAtomAt<R>(id: R -> Digest, rows: seq<R>, i: nat)
    requires Distinct(Map(id, rows)) && i < |rows|
    ensures id(rows[i]) in ByAtom(id, rows) && ByAtom(id, rows)[id(rows[i])] == rows[i]
  {
    var x := Map(id, rows)[i];
    ByAtomKeys(id, rows);
    assert x in Map(id, rows);
    assert x in ByAtom(id, rows).Keys;
    var j :| 0 <= j < |rows| && ByAtom(id, rows)[x] == rows[j] && id(rows[j]) == x;
    DistinctAt(Map(id, rows), i, j);
  }

  lemma {:induction false} ByAtomSize<R>(id: R -> Digest, rows: seq<R>)
    requires Distinct(Map(id, rows))
    ensures |ByAtom(id, rows)| == |rows|
  {
    if rows != [] {
      var init, last := rows[..|rows| - 1], rows[|rows| - 1];
      assert Map(id, rows) == Map(id, init) + [id(last)];
      DistinctParts(Map(id, init), [id(last)]);
      ByAtomSize(id, init);
      ByAtomKeys(id, init);
      forall i | 0 <= i < |init| ensures Map(id, init)[i] != id(last) {
        assert Map(id, rows)[i] != Map(id, rows)[|rows| - 1];
      }
      assert id(last) !in ByAtom(id, init).Keys;
    }
  }
}
