/** Build, then warm: the rows a warmed generation serves are the atoms it was built from, each once. */
module SearchWarmed {
  import opened Wrappers
  import opened Sequences
  import opened Sorting
  import opened SearchModel
  import opened SearchIndex
  import opened SearchRefinement
  import opened SearchBuild
  import opened SearchGeneration
  import opened SearchWarm

  // ---------------------------------------------------------------- the rows read back

  /** A segment's atoms in table order. */
  function InOrder(k: Kernel, input: BuildInput): Digest -> seq<Atom> {
    (id: Digest) => Sort(AtomKey(), GroupFor(k, input, id))
  }

  lemma OrderedGroup(k: Kernel, input: BuildInput, id: Digest)
    requires ValidAtoms(k, input)
    ensures multiset(InOrder(k, input)(id)) == multiset(GroupFor(k, input, id))
    ensures DistinctAtoms(InOrder(k, input)(id)) && DistinctAtoms(GroupFor(k, input, id))
    ensures forall a :: a in InOrder(k, input)(id) ==> a in input.atoms && SegmentIdOf(k, input.lineage)(a) == id
  {
    var group := GroupFor(k, input, id);
    SortPermutes(AtomKey(), group);
    SortMembers(AtomKey(), group);
    GroupMembers(k, input, id);
    FilterDistinct(InSegment(k, input.lineage, id), IdOf(), input.atoms);
    MapPermutes(IdOf(), group, InOrder(k, input)(id));
    DistinctPermutes(Map(IdOf(), group), Map(IdOf(), InOrder(k, input)(id)));
  }

  lemma ReadBack(k: Kernel, input: BuildInput, id: Digest)
    requires ValidPlanes(k, input) && id in SegmentIds(k, input.lineage, input.atoms)
    ensures
      var read, atoms := ReadOf(SegmentFor(k, input, id)), InOrder(k, input)(id);
      && read.facts == Map(FactOfAtom(k), atoms)
      && read.content == Map(ContentOfAtom(k), atoms)
      && read.documents == Map(DocumentOfAtom(k), atoms)
      && multiset(read.postings) == multiset(FlatMap(PostingsOfAtom(k), atoms))
  {
    var group := GroupFor(k, input, id);
    SortMap(AtomKey(), FactKey(), FactOfAtom(k), group);
    SortMap(AtomKey(), ContentKey(), ContentOfAtom(k), group);
    SortMap(AtomKey(), DocumentKey(), DocumentOfAtom(k), group);
    SortPermutes(AtomKey(), group);
    SortPermutes(PostingKey(), FlatMap(PostingsOfAtom(k), group));
    FlatMapPermutes(PostingsOfAtom(k), group, Sort(AtomKey(), group));
  }

  lemma ContentFound(k: Kernel, atoms: seq<Atom>, a: Atom)
    requires DistinctAtoms(atoms) && a in atoms
    ensures a.at.atomId in ContentByAtom(Map(ContentOfAtom(k), atoms))
    ensures ContentByAtom(Map(ContentOfAtom(k), atoms))[a.at.atomId] == ContentOf(k, a)
    ensures a.at.atomId in DocumentByAtom(Map(DocumentOfAtom(k), atoms))
    ensures DocumentByAtom(Map(DocumentOfAtom(k), atoms))[a.at.atomId] == DocumentOf(k, a)
  {
    var i :| 0 <= i < |atoms| && atoms[i] == a;
    MapMap(ContentOfAtom(k), ContentAtomId(), IdOf(), atoms);
    MapMap(DocumentOfAtom(k), DocumentAtomId(), IdOf(), atoms);
    ByAtomAt(ContentAtomId(), Map(ContentOfAtom(k), atoms), i);
    ByAtomAt(DocumentAtomId(), Map(DocumentOfAtom(k), atoms), i);
    assert Map(ContentOfAtom(k), atoms)[i] == ContentOfAtom(k)(a);
    assert Map(DocumentOfAtom(k), atoms)[i] == DocumentOfAtom(k)(a);
  }

  lemma TablesComplete(k: Kernel, atoms: seq<Atom>)
    requires DistinctAtoms(atoms)
    ensures |ContentByAtom(Map(ContentOfAtom(k), atoms))| == |atoms|
    ensures |DocumentByAtom(Map(DocumentOfAtom(k), atoms))| == |atoms|
  {
    MapMap(ContentOfAtom(k), ContentAtomId(), IdOf(), atoms);
    MapMap(DocumentOfAtom(k), DocumentAtomId(), IdOf(), atoms);
    ByAtomSize(ContentAtomId(), Map(ContentOfAtom(k), atoms));
    ByAtomSize(DocumentAtomId(), Map(DocumentOfAtom(k), atoms));
  }

  // ---------------------------------------------------------------- a built segment is valid

  lemma BuiltFactValid(k: Kernel, input: BuildInput, body: GenerationBody, tuple: PolicyTuple, atoms: seq<Atom>, a: Atom)
    requires DistinctAtoms(atoms) && a in atoms
    requires ValidAtom(k, input, a) && TupleOf(a) == tuple && body.lineage == input.lineage
    ensures ValidFact(k, body, tuple, FactOf(k, a), ContentByAtom(Map(ContentOfAtom(k), atoms)), DocumentByAtom(Map(DocumentOfAtom(k), atoms)))
  {
    ContentFound(k, atoms, a);
    assert SameContent(k, FactOf(k, a), ContentOf(k, a));
    assert SameDocument(FactOf(k, a), DocumentOf(k, a));
    assert TupleOfFact(FactOf(k, a)) == tuple;
    assert FactProvenance(k, FactOf(k, a)) == FactOf(k, a).provenanceBinding;
    assert CanonicalIds([], false);
  }

  lemma BuiltRowsValid(k: Kernel, input: BuildInput, body: GenerationBody, id: Digest)
    requires k.Valid() && ValidAtoms(k, input) && ValidPlanes(k, input) && id in SegmentIds(k, input.lineage, input.atoms)
    requires body.lineage == input.lineage
    ensures ValidRows(k, body, SegmentFor(k, input, id).manifest.tuple, ReadOf(SegmentFor(k, input, id)))
  {
    var atoms, read := InOrder(k, input)(id), ReadOf(SegmentFor(k, input, id));
    var tuple := SegmentFor(k, input, id).manifest.tuple;
    OrderedGroup(k, input, id);
    ReadBack(k, input, id);
    TablesComplete(k, atoms);
    forall f | f in read.facts ensures ValidFact(k, body, tuple, f, ContentByAtom(read.content), DocumentByAtom(read.documents)) {
      var i :| 0 <= i < |read.facts| && read.facts[i] == f;
      assert f == FactOfAtom(k)(atoms[i]);
      assert atoms[i] in atoms;
      TupleFor(k, input, id, atoms[i]);
      BuiltFactValid(k, input, body, tuple, atoms, atoms[i]);
    }
  }

  /** Every atom of a segment has the segment's tuple. */
  lemma TupleFor(k: Kernel, input: BuildInput, id: Digest, a: Atom)
    requires k.Valid() && ValidPlanes(k, input) && id in SegmentIds(k, input.lineage, input.atoms)
    requires SegmentIdOf(k, input.lineage)(a) == id
    ensures TupleOf(a) == SegmentFor(k, input, id).manifest.tuple
    ensures k.sha(SegmentIdentity(input.lineage, TupleOf(a))) == id
  {
    GroupNotEmpty(k, input.lineage, input.atoms, id);
    GroupMembers(k, input, id);
    var first := GroupFor(k, input, id)[0];
    assert first in GroupFor(k, input, id);
    SharedTuple(k, input.lineage, id, TupleOf(first), a);
  }

  lemma FirstAtom(k: Kernel, input: BuildInput, id: Digest) returns (a: Atom)
    requires id in SegmentIds(k, input.lineage, input.atoms)
    ensures a in input.atoms && SegmentIdOf(k, input.lineage)(a) == id
  {
    GroupNotEmpty(k, input.lineage, input.atoms, id);
    GroupMembers(k, input, id);
    a := GroupFor(k, input, id)[0];
    assert a in GroupFor(k, input, id);
  }

  lemma BuiltTupleValid(k: Kernel, input: BuildInput, id: Digest)
    requires k.Valid() && ValidAtoms(k, input) && WithinBudget(k, input) && ValidPlanes(k, input) && id in SegmentIds(k, input.lineage, input.atoms)
    ensures
      var tuple := SegmentFor(k, input, id).manifest.tuple;
      && ValidTuple(tuple) && ScalarTuple(tuple) && k.sha(SegmentIdentity(input.lineage, tuple)) == id
      && PolicyContract(PoliciesOf(input), tuple.policy) == Some(tuple.contract)
  {
    var a := FirstAtom(k, input, id);
    TupleFor(k, input, id, a);
    assert ValidAtom(k, input, a);
    assert ValidPolicy(a) && Admissible(k, input.lineage, a);
    PolicyBound(input, a.policy, a.contract);
  }

  lemma BuiltMetadataValid(k: Kernel, input: BuildInput, entries: seq<SegmentEntry>, id: Digest, plane: Plane)
    requires ValidPlanes(k, input) && id in SegmentIds(k, input.lineage, input.atoms)
    ensures ValidMetadata(k, input.baseline, BodyOf(k, input, entries), SegmentFor(k, input, id), plane)
  {
    assert ValidPlane(k, input, plane);
  }

  lemma {:induction false} FilterSum(p: Atom -> bool, f: Atom -> int, atoms: seq<Atom>)
    requires forall a :: f(a) >= 0
    ensures Sum(f, Filter(p, atoms)) <= Sum(f, atoms)
  {
    if atoms != [] {
      FilterSum(p, f, atoms[1..]);
      assert Filter(p, atoms) == (if p(atoms[0]) then [atoms[0]] else []) + Filter(p, atoms[1..]);
      SumConcat(f, if p(atoms[0]) then [atoms[0]] else [], Filter(p, atoms[1..]));
      assert [atoms[0]][1..] == [];
    }
  }

  /** The counts of a segment are within the budget of the whole input. */
  lemma BuiltCountsValid(k: Kernel, input: BuildInput, id: Digest)
    requires WithinBudget(k, input) && ValidPlanes(k, input) && id in SegmentIds(k, input.lineage, input.atoms)
    ensures var m := SegmentFor(k, input, id).manifest;
            IsNonNegative(m.factCount) && IsNonNegative(m.contentCount) && IsNonNegative(m.documentCount) && IsNonNegative(m.postingCount)
  {
    var group := GroupFor(k, input, id);
    FilterMembers(InSegment(k, input.lineage, id), input.atoms);
    FilterSum(InSegment(k, input.lineage, id), PostingCount(k), input.atoms);
    FlatMapLength(PostingsOfAtom(k), PostingCount(k), group);
    SortPermutes(FactKey(), Map(FactOfAtom(k), group));
    SortPermutes(ContentKey(), Map(ContentOfAtom(k), group));
    SortPermutes(DocumentKey(), Map(DocumentOfAtom(k), group));
    SortPermutes(PostingKey(), FlatMap(PostingsOfAtom(k), group));
  }

  lemma BuiltHeaderValid(k: Kernel, input: BuildInput, entries: seq<SegmentEntry>, id: Digest)
    requires k.Valid() && ValidAtoms(k, input) && WithinBudget(k, input) && ValidPlanes(k, input) && id in SegmentIds(k, input.lineage, input.atoms)
    ensures
      var files := SegmentFor(k, input, id);
      ValidHeader(k, input.baseline, BodyOf(k, input, entries), EntryFor(k, files.manifest), files)
  {
    BuiltTupleValid(k, input, id);
    BuiltCountsValid(k, input, id);
    BuiltMetadataValid(k, input, entries, id, FactsPlane);
    BuiltMetadataValid(k, input, entries, id, ContentPlane);
    BuiltMetadataValid(k, input, entries, id, LexicalPlane);
  }

  lemma PolicyBound(input: BuildInput, policy: PolicyId, contract: Digest)
    requires policy == RestrictedReviewer || policy == ProjectMembers
    requires ExpectedContract(input, policy) == Some(contract)
    ensures PolicyContract(PoliciesOf(input), policy) == Some(contract)
  {
    var policies := PoliciesOf(input);
    if policy == ProjectMembers {
      assert policies[1..] == [PolicyStamp(ProjectMembers, contract)];
    }
  }

  lemma BuiltSegmentValid(k: Kernel, input: BuildInput, entries: seq<SegmentEntry>, id: Digest)
    requires k.Valid() && ValidAtoms(k, input) && WithinBudget(k, input) && ValidPlanes(k, input) && id in SegmentIds(k, input.lineage, input.atoms)
    ensures
      var files := SegmentFor(k, input, id);
      ValidSegment(k, input.baseline, BodyOf(k, input, entries), EntryFor(k, files.manifest), files)
  {
    BuiltHeaderValid(k, input, entries, id);
    BuiltRowsValid(k, input, BodyOf(k, input, entries), id);
  }

  lemma BuiltSegmentHolds(k: Kernel, input: BuildInput, id: Digest)
    requires k.Valid() && ValidAtoms(k, input) && ValidPlanes(k, input) && id in SegmentIds(k, input.lineage, input.atoms)
    ensures Holding(k, RowsOf(SegmentFor(k, input, id)), InOrder(k, input)(id))
  {
    var atoms := InOrder(k, input)(id);
    OrderedGroup(k, input, id);
    ReadBack(k, input, id);
    forall a | a in atoms
      ensures a.at.atomId in RowsOf(SegmentFor(k, input, id)).content
      ensures RowsOf(SegmentFor(k, input, id)).content[a.at.atomId] == ContentOf(k, a)
      ensures TupleOf(a) == SegmentFor(k, input, id).manifest.tuple
    {
      ContentFound(k, atoms, a);
      TupleFor(k, input, id, a);
    }
  }

  // ---------------------------------------------------------------- each atom in exactly one segment

  function AnySegment(k: Kernel, lineage: Lineage, ids: seq<Digest>): Atom -> bool {
    (a: Atom) => SegmentIdOf(k, lineage)(a) in ids
  }

  lemma {:induction false} GroupsPartition(k: Kernel, input: BuildInput, ids: seq<Digest>)
    requires Distinct(ids)
    ensures multiset(Concat(Map(InOrder(k, input), ids))) == multiset(Filter(AnySegment(k, input.lineage, ids), input.atoms))
  {
    if ids == [] {
      FilterNone(AnySegment(k, input.lineage, ids), input.atoms);
    } else {
      var id, rest := ids[0], ids[1..];
      DistinctParts([id], rest);
      assert ids == [id] + rest;
      GroupsPartition(k, input, rest);
      SortPermutes(AtomKey(), GroupFor(k, input, id));
      assert Map(InOrder(k, input), ids)[1..] == Map(InOrder(k, input), rest);
      assert id !in rest by { assert [id][0] == id; }
      PartitionStep(k, input, id, rest);
    }
  }

  lemma PartitionStep(k: Kernel, input: BuildInput, id: Digest, rest: seq<Digest>)
    requires id !in rest
    ensures multiset(GroupFor(k, input, id)) + multiset(Filter(AnySegment(k, input.lineage, rest), input.atoms))
      == multiset(Filter(AnySegment(k, input.lineage, [id] + rest), input.atoms))
  {
    var one, more, all := GroupFor(k, input, id), Filter(AnySegment(k, input.lineage, rest), input.atoms),
                          Filter(AnySegment(k, input.lineage, [id] + rest), input.atoms);
    forall x ensures multiset(one)[x] + multiset(more)[x] == multiset(all)[x] {
      FilterCount(InSegment(k, input.lineage, id), input.atoms, x);
      FilterCount(AnySegment(k, input.lineage, rest), input.atoms, x);
      FilterCount(AnySegment(k, input.lineage, [id] + rest), input.atoms, x);
    }
  }

  /** The segments of a build, taken together, hold every input atom once. */
  lemma GroupsAreAtoms(k: Kernel, input: BuildInput, ids: seq<Digest>)
    requires ValidAtoms(k, input) && OrderedIds(ids, SegmentIds(k, input.lineage, input.atoms))
    ensures multiset(Concat(Map(InOrder(k, input), ids))) == multiset(input.atoms)
    ensures DistinctAtoms(Concat(Map(InOrder(k, input), ids)))
  {
    GroupsPartition(k, input, ids);
    forall a | a in input.atoms ensures AnySegment(k, input.lineage, ids)(a) {
      var id := SegmentIdOf(k, input.lineage)(a);
      assert id in SegmentIds(k, input.lineage, input.atoms);
      assert id in ids <==> id in SegmentIds(k, input.lineage, input.atoms);
    }
    FilterAll(AnySegment(k, input.lineage, ids), input.atoms);
    MapPermutes(IdOf(), input.atoms, Concat(Map(InOrder(k, input), ids)));
    DistinctPermutes(Map(IdOf(), input.atoms), Map(IdOf(), Concat(Map(InOrder(k, input), ids))));
  }
}
