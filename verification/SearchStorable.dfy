/** Exactly which accepted input a build can store. */
module SearchStorable {
  import opened Wrappers
  import opened Sequences
  import opened Sorting
  import opened SearchModel
  import opened SearchIndex
  import opened SearchScope
  import opened SearchBuild
  import opened SearchGeneration

  /** Atoms of one record differ in their order and in their signal. */
  predicate Apart(a: Atom, b: Atom) { a.at.position == b.at.position ==> a.at.order != b.at.order && a.at.signal != b.at.signal }

  predicate AllApart(atoms: seq<Atom>) { forall i, j :: 0 <= i < j < |atoms| ==> Apart(atoms[i], atoms[j]) }

  function IdRow(): Atom -> Key { (a: Atom) => [a.at.atomId] }
  function PlaceRow(): Atom -> Key { (a: Atom) => [a.at.position, a.at.order] }
  function SignalRow(): Atom -> Key { (a: Atom) => [a.at.position, a.at.signal] }

  lemma IdsUnique(atoms: seq<Atom>)
    requires DistinctAtoms(atoms)
    ensures Distinct(Map(IdRow(), atoms))
  {
    forall i, j | 0 <= i < j < |atoms| ensures Map(IdRow(), atoms)[i] != Map(IdRow(), atoms)[j] {
      assert Map(IdOf(), atoms)[i] != Map(IdOf(), atoms)[j];
      assert Map(IdRow(), atoms)[i][0] != Map(IdRow(), atoms)[j][0];
    }
  }

  lemma PlacesUnique(atoms: seq<Atom>)
    ensures Distinct(Map(PlaceRow(), atoms)) && Distinct(Map(SignalRow(), atoms)) <==> AllApart(atoms)
  {
    forall i, j | 0 <= i < j < |atoms|
      ensures Apart(atoms[i], atoms[j])
         <==> Map(PlaceRow(), atoms)[i] != Map(PlaceRow(), atoms)[j] && Map(SignalRow(), atoms)[i] != Map(SignalRow(), atoms)[j]
    {
      RowsApart(atoms[i], atoms[j]);
    }
  }

  lemma RowsApart(a: Atom, b: Atom)
    ensures Apart(a, b) <==> PlaceRow()(a) != PlaceRow()(b) && SignalRow()(a) != SignalRow()(b)
  {
    assert PlaceRow()(a)[0] == a.at.position && PlaceRow()(a)[1] == a.at.order;
    assert PlaceRow()(b)[0] == b.at.position && PlaceRow()(b)[1] == b.at.order;
    assert SignalRow()(a)[0] == a.at.position && SignalRow()(a)[1] == a.at.signal;
    assert SignalRow()(b)[0] == b.at.position && SignalRow()(b)[1] == b.at.signal;
  }

  lemma RowCheck<R>(check: R -> bool, f: Atom -> R, atoms: seq<Atom>)
    requires forall a :: a in atoms ==> check(f(a))
    ensures forall row :: row in Map(f, atoms) ==> check(row)
  {
    forall row | row in Map(f, atoms) ensures check(row) {
      var i :| 0 <= i < |Map(f, atoms)| && Map(f, atoms)[i] == row;
      assert atoms[i] in atoms;
    }
  }

  ghost predicate AllValidAtoms(k: Kernel, input: BuildInput, atoms: seq<Atom>) {
    DistinctAtoms(atoms) && forall a :: a in atoms ==> ValidAtom(k, input, a)
  }

  lemma FactsUnique(k: Kernel, atoms: seq<Atom>)
    requires DistinctAtoms(atoms)
    ensures Unique([FactId(), FactPlace(), FactSignal()], Map(FactOfAtom(k), atoms)) <==> AllApart(atoms)
  {
    MapMap(FactOfAtom(k), FactId(), IdRow(), atoms);
    MapMap(FactOfAtom(k), FactPlace(), PlaceRow(), atoms);
    MapMap(FactOfAtom(k), FactSignal(), SignalRow(), atoms);
    IdsUnique(atoms);
    PlacesUnique(atoms);
    ThreeKeys(FactId(), FactPlace(), FactSignal(), Map(FactOfAtom(k), atoms));
  }

  lemma FactsStored(k: Kernel, input: BuildInput, atoms: seq<Atom>)
    requires AllValidAtoms(k, input, atoms)
    ensures Accepts([FactId(), FactPlace(), FactSignal()], FactCheck(), Map(FactOfAtom(k), atoms)) <==> AllApart(atoms)
  {
    FactsUnique(k, atoms);
    forall a | a in atoms ensures FactCheck()(FactOfAtom(k)(a)) { assert ValidAtom(k, input, a); }
    RowCheck(FactCheck(), FactOfAtom(k), atoms);
  }

  lemma ThreeKeys<R>(x: R -> Key, y: R -> Key, z: R -> Key, rows: seq<R>)
    ensures Unique([x, y, z], rows) <==> Distinct(Map(x, rows)) && Distinct(Map(y, rows)) && Distinct(Map(z, rows))
  {
    assert [x, y, z][0] == x && [x, y, z][1] == y && [x, y, z][2] == z;
    assert x in [x, y, z] && y in [x, y, z] && z in [x, y, z];
  }

  lemma TwoKeys<R>(x: R -> Key, y: R -> Key, rows: seq<R>)
    ensures Unique([x, y], rows) <==> Distinct(Map(x, rows)) && Distinct(Map(y, rows))
  {
    assert [x, y][0] == x && [x, y][1] == y;
    assert x in [x, y] && y in [x, y];
  }

  lemma ContentStored(k: Kernel, input: BuildInput, atoms: seq<Atom>)
    requires AllValidAtoms(k, input, atoms) && AllApart(atoms)
    ensures Accepts([ContentId(), ContentPlace()], ContentCheck(), Map(ContentOfAtom(k), atoms))
  {
    MapMap(ContentOfAtom(k), ContentId(), IdRow(), atoms);
    MapMap(ContentOfAtom(k), ContentPlace(), PlaceRow(), atoms);
    IdsUnique(atoms);
    PlacesUnique(atoms);
    TwoKeys(ContentId(), ContentPlace(), Map(ContentOfAtom(k), atoms));
    forall a | a in atoms ensures ContentCheck()(ContentOfAtom(k)(a)) { assert ValidAtom(k, input, a); }
    RowCheck(ContentCheck(), ContentOfAtom(k), atoms);
  }

  lemma DocumentsStored(k: Kernel, input: BuildInput, atoms: seq<Atom>)
    requires AllValidAtoms(k, input, atoms) && AllApart(atoms)
    ensures Accepts([DocumentId(), DocumentPlace()], DocumentCheck(), Map(DocumentOfAtom(k), atoms))
  {
    MapMap(DocumentOfAtom(k), DocumentId(), IdRow(), atoms);
    MapMap(DocumentOfAtom(k), DocumentPlace(), PlaceRow(), atoms);
    IdsUnique(atoms);
    PlacesUnique(atoms);
    TwoKeys(DocumentId(), DocumentPlace(), Map(DocumentOfAtom(k), atoms));
    forall a | a in atoms ensures DocumentCheck()(DocumentOfAtom(k)(a)) { assert ValidAtom(k, input, a); }
    RowCheck(DocumentCheck(), DocumentOfAtom(k), atoms);
  }

  lemma PostingKeysDiffer(p: PostingRow, q: PostingRow)
    requires PairOf()(p) != PairOf()(q)
    ensures PostingKey()(p) != PostingKey()(q)
  {
    if PostingKey()(p) == PostingKey()(q) { PostingKeySeparates(p, q); }
  }

  /** Postings never clash: terms are counted once for each atom, and atoms are distinct. */
  lemma PostingsStored(k: Kernel, atoms: seq<Atom>)
    requires k.Valid() && DistinctAtoms(atoms)
    ensures Accepts([PostingKey()], PostingCheck(), FlatMap(PostingsOfAtom(k), atoms))
  {
    var rows := FlatMap(PostingsOfAtom(k), atoms);
    PostingsProper(k, atoms);
    forall i, j | 0 <= i < j < |rows| ensures Map(PostingKey(), rows)[i] != Map(PostingKey(), rows)[j] {
      assert Map(PairOf(), rows)[i] != Map(PairOf(), rows)[j];
      PostingKeysDiffer(rows[i], rows[j]);
    }
    assert [PostingKey()][0] == PostingKey();
    forall p | p in rows ensures PostingCheck()(p) { PostingCounts(k, atoms, p); }
  }

  lemma PostingCounts(k: Kernel, atoms: seq<Atom>, p: PostingRow)
    requires k.Valid() && p in FlatMap(PostingsOfAtom(k), atoms)
    ensures p.count > 0
  {
    FlatMapMembers(PostingsOfAtom(k), atoms, p);
    var a :| a in atoms && p in PostingsOfAtom(k)(a);
    var i :| 0 <= i < |CountsOf(k, a)| && PostingsOf(k, a)[i] == p;
    assert ProperCounts(k.analyze(a.text, a.at.kind));
  }

  /** Of atoms that are each valid, the four tables take exactly those that are apart. */
  lemma StoredExactly(k: Kernel, input: BuildInput, atoms: seq<Atom>)
    requires k.Valid() && AllValidAtoms(k, input, atoms)
    ensures Storable(k, atoms) <==> AllApart(atoms)
  {
    FactsStored(k, input, atoms);
    PostingsStored(k, atoms);
    if AllApart(atoms) {
      ContentStored(k, input, atoms);
      DocumentsStored(k, input, atoms);
    }
  }

  /** So a segment of accepted atoms can be stored exactly when no two of them share a position with an order or a signal. */
  lemma StorableExactly(k: Kernel, input: BuildInput, id: Digest)
    requires k.Valid() && ValidAtoms(k, input)
    ensures Storable(k, GroupFor(k, input, id)) <==> AllApart(GroupFor(k, input, id))
  {
    GroupMembers(k, input, id);
    FilterDistinct(InSegment(k, input.lineage, id), IdOf(), input.atoms);
    StoredExactly(k, input, GroupFor(k, input, id));
  }

  // ---------------------------------------------------------------- read off the input

  /** No two atoms under one policy tuple clash. */
  predicate TuplesApart(atoms: seq<Atom>) {
    forall i, j :: 0 <= i < j < |atoms| && TupleOf(atoms[i]) == TupleOf(atoms[j]) ==> Apart(atoms[i], atoms[j])
  }

  /** Distinct atoms of a collection are apart whenever they share a tuple, whatever their places in it. */
  lemma TuplesApartMembers(atoms: seq<Atom>)
    requires DistinctAtoms(atoms)
    ensures TuplesApart(atoms)
       <==> forall a, b :: a in atoms && b in atoms && a.at.atomId != b.at.atomId && TupleOf(a) == TupleOf(b) ==> Apart(a, b)
  {
    if TuplesApart(atoms) {
      forall a, b | a in atoms && b in atoms && a.at.atomId != b.at.atomId && TupleOf(a) == TupleOf(b) ensures Apart(a, b) {
        var i :| 0 <= i < |atoms| && atoms[i] == a;
        var j :| 0 <= j < |atoms| && atoms[j] == b;
        assert if i < j then Apart(atoms[i], atoms[j]) else Apart(atoms[j], atoms[i]);
      }
    } else {
      var i, j :| 0 <= i < j < |atoms| && TupleOf(atoms[i]) == TupleOf(atoms[j]) && !Apart(atoms[i], atoms[j]);
      assert Map(IdOf(), atoms)[i] != Map(IdOf(), atoms)[j];
      assert atoms[i] in atoms && atoms[j] in atoms;
    }
  }

  lemma GroupApart(k: Kernel, input: BuildInput, id: Digest)
    requires k.Valid() && ValidAtoms(k, input) && TuplesApart(input.atoms)
    ensures AllApart(GroupFor(k, input, id))
  {
    var group := GroupFor(k, input, id);
    GroupMembers(k, input, id);
    FilterDistinct(InSegment(k, input.lineage, id), IdOf(), input.atoms);
    TuplesApartMembers(input.atoms);
    forall i, j | 0 <= i < j < |group| ensures Apart(group[i], group[j]) {
      assert group[i] in group && group[j] in group;
      assert Map(IdOf(), group)[i] != Map(IdOf(), group)[j];
      SharedTuple(k, input.lineage, id, TupleOf(group[j]), group[i]);
    }
  }

  lemma GroupsCover(k: Kernel, input: BuildInput, a: Atom, b: Atom)
    requires k.Valid() && ValidAtoms(k, input) && a in input.atoms && b in input.atoms && a.at.atomId != b.at.atomId
    requires TupleOf(a) == TupleOf(b) && AllApart(GroupFor(k, input, SegmentIdOf(k, input.lineage)(a)))
    ensures Apart(a, b)
  {
    var id := SegmentIdOf(k, input.lineage)(a);
    var group := GroupFor(k, input, id);
    GroupMembers(k, input, id);
    assert a in group && b in group;
    var i :| 0 <= i < |group| && group[i] == a;
    var j :| 0 <= j < |group| && group[j] == b;
    assert if i < j then Apart(group[i], group[j]) else Apart(group[j], group[i]);
  }

  ghost predicate AllStorable(k: Kernel, input: BuildInput) {
    forall id :: id in SegmentIds(k, input.lineage, input.atoms) ==> Storable(k, GroupFor(k, input, id))
  }

  lemma AllStorableExactly(k: Kernel, input: BuildInput)
    requires k.Valid() && ValidAtoms(k, input)
    ensures AllStorable(k, input) <==> TuplesApart(input.atoms)
  {
    if TuplesApart(input.atoms) {
      forall id | id in SegmentIds(k, input.lineage, input.atoms) ensures Storable(k, GroupFor(k, input, id)) {
        GroupApart(k, input, id);
        StorableExactly(k, input, id);
      }
    }
    if AllStorable(k, input) {
      TuplesApartMembers(input.atoms);
      forall a, b | a in input.atoms && b in input.atoms && a.at.atomId != b.at.atomId && TupleOf(a) == TupleOf(b) ensures Apart(a, b) {
        var id := SegmentIdOf(k, input.lineage)(a);
        assert id in SegmentIds(k, input.lineage, input.atoms);
        StorableExactly(k, input, id);
        GroupsCover(k, input, a, b);
      }
    }
  }

  /** What the checks before the first write ask of the input, and a lineage manifest for each plane that is written. */
  ghost predicate Checkable(k: Kernel, input: BuildInput) {
    ValidCoordinates(input) && ValidAtoms(k, input) && WithinBudget(k, input) && (input.atoms != [] ==> ValidPlanes(k, input))
  }

  /** The names no check looks at before a digest is taken of them. */
  predicate NamesScalar(input: BuildInput) {
    && ScalarLineage(input.lineage) && (forall plane | plane in input.planes :: Scalar(input.planes[plane].text))
    && Scalar(input.sourceRevision) && ScalarAnalyzer(input.analyzer) && Scalar(input.sqlite)
    && forall i | 0 <= i < |input.atoms| :: AtomScalar(input.atoms[i])
  }

  predicate AtomScalar(a: Atom) { Scalar(a.at.approval) && Scalar(a.proof.auditEvent) && Scalar(a.text) }

  /** Every other name of an accepted atom has been checked. */
  lemma CheckedBindable(k: Kernel, input: BuildInput, a: Atom)
    requires Checkable(k, input) && a in input.atoms
    ensures Bindable(a) && Scalar(a.text) <==> AtomScalar(a)
    ensures ScalarLineage(input.lineage)
  {
    assert ValidAtom(k, input, a) && ValidPolicy(a) && Admissible(k, input.lineage, a);
  }

  lemma DigestibleExactly(k: Kernel, input: BuildInput)
    requires Checkable(k, input)
    ensures Rootable(input) && Stampable(input) <==> NamesScalar(input)
  {
    forall i | 0 <= i < |input.atoms| ensures Bindable(input.atoms[i]) && Scalar(input.atoms[i].text) <==> AtomScalar(input.atoms[i]) {
      CheckedBindable(k, input, input.atoms[i]);
    }
  }

  lemma GroupBindable(k: Kernel, input: BuildInput, id: Digest)
    requires Rootable(input)
    ensures AllBindable(GroupFor(k, input, id))
  {
    var group := GroupFor(k, input, id);
    GroupMembers(k, input, id);
    forall i | 0 <= i < |group| ensures Bindable(group[i]) {
      assert group[i] in group && group[i] in input.atoms;
    }
  }

  lemma AllSegmentable(k: Kernel, input: BuildInput)
    requires Rootable(input)
    ensures AllStorable(k, input)
       <==> forall id :: id in SegmentIds(k, input.lineage, input.atoms) ==> Segmentable(k, GroupFor(k, input, id))
  {
    forall id ensures AllBindable(GroupFor(k, input, id)) { GroupBindable(k, input, id); }
  }

  /**
   * Accepted input is built exactly when no two of its atoms under one policy
   * share a position with an order or a signal, and canonical JSON can print
   * the names that nothing has checked.
   */
  lemma BuildableExactly(k: Kernel, input: BuildInput)
    requires k.Valid()
    ensures Buildable(k, input) <==> Checkable(k, input) && TuplesApart(input.atoms) && NamesScalar(input)
  {
    if Checkable(k, input) {
      DigestibleExactly(k, input);
      if Rootable(input) {
        AllSegmentable(k, input);
        AllStorableExactly(k, input);
      }
    }
  }

  // ---------------------------------------------------------------- accepted inputs that are not built

  function SampleLineage(): Lineage { Lineage([97], [97], [97]) }

  function SampleAtom(k: Kernel, id: Digest, signal: Digest, approval: Name): Atom {
    Atom(Coordinates(SampleLineage(), 1, 7, 8, approval, id, 0, signal, Decision), [], k.sha(TextBytes([])), RestrictedReviewer, 5,
         Proof([97], 1, 9, 10, 11), Some([97]), Some([97]), None, None)
  }

  /** The lineage manifests of the three planes, and the schema digest each names. */
  function SamplePlanes(k: Kernel, texts: map<Plane, Text>): map<Plane, PlaneManifest> {
    map plane | plane in texts :: PlaneManifest(1, texts[plane], k.sha(TextBytes(texts[plane])))
  }

  ghost predicate ProperTexts(k: Kernel, texts: map<Plane, Text>) {
    && texts.Keys == {FactsPlane, ContentPlane, LexicalPlane}
    && forall plane | plane in texts ::
      Scalar(texts[plane]) && k.plane(texts[plane]) == Some(PlaneBody(plane, SampleLineage(), SchemaVersion(plane), 1))
  }

  function SampleInput(k: Kernel, texts: map<Plane, Text>, atoms: seq<Atom>): BuildInput {
    BuildInput(
      SampleLineage(), SamplePlanes(k, texts), map[FactsPlane := 1, ContentPlane := 1, LexicalPlane := 1],
      Head(SampleLineage(), 1, Some(7)), 4, 5, None, AnalyzerStamp(6, 7, [97], [97], [97]), [97], 12, [97], atoms)
  }

  /** Two decisions of one reviewer that claim the same place in one record. */
  function ClashingAtoms(k: Kernel): seq<Atom> { [SampleAtom(k, 20, 30, [97]), SampleAtom(k, 21, 31, [97])] }

  /** A decision whose approval is named by half of a surrogate pair. */
  function HalfPairAtoms(k: Kernel): seq<Atom> { [SampleAtom(k, 20, 30, [0xd800])] }

  ghost predicate PlainKernel(k: Kernel) { k.Valid() && k.normal([]) && |k.analyze([], Decision)| <= 1 }

  lemma SampleAdmissible(k: Kernel, id: Digest, signal: Digest, approval: Name)
    requires PlainKernel(k)
    ensures Admissible(k, SampleLineage(), SampleAtom(k, id, signal, approval))
  {
    assert Scalar([97]);
  }

  lemma SamplePlanesValid(k: Kernel, texts: map<Plane, Text>, atoms: seq<Atom>)
    requires ProperTexts(k, texts)
    ensures ValidPlanes(k, SampleInput(k, texts, atoms))
  {
    var input := SampleInput(k, texts, atoms);
    forall plane | plane in texts ensures ValidPlane(k, input, plane) {
      assert input.planes[plane] == PlaneManifest(1, texts[plane], k.sha(TextBytes(texts[plane])));
    }
  }

  lemma SampleValid(k: Kernel, texts: map<Plane, Text>, atoms: seq<Atom>, id: Digest, signal: Digest, approval: Name)
    requires ValidText(approval)
    ensures ValidAtom(k, SampleInput(k, texts, atoms), SampleAtom(k, id, signal, approval))
  {
  }

  lemma ClashingWithinBudget(k: Kernel, texts: map<Plane, Text>)
    requires PlainKernel(k)
    ensures WithinBudget(k, SampleInput(k, texts, ClashingAtoms(k)))
  {
    var a, b := SampleAtom(k, 20, 30, [97]), SampleAtom(k, 21, 31, [97]);
    SampleAdmissible(k, 20, 30, [97]);
    SampleAdmissible(k, 21, 31, [97]);
    assert [a, b][1..] == [b] && [b][1..] == [];
    assert Sum(PostingCount(k), [a, b]) == PostingCount(k)(a) + Sum(PostingCount(k), [b]);
    assert Sum(PostingCount(k), [b]) == PostingCount(k)(b) + Sum(PostingCount(k), []);
    assert SegmentIdOf(k, SampleLineage())(a) == SegmentIdOf(k, SampleLineage())(b);
    assert SegmentIds(k, SampleLineage(), [a, b]) == {SegmentIdOf(k, SampleLineage())(a)};
  }

  lemma HalfPairWithinBudget(k: Kernel, texts: map<Plane, Text>)
    requires PlainKernel(k)
    ensures WithinBudget(k, SampleInput(k, texts, HalfPairAtoms(k)))
  {
    var a := SampleAtom(k, 20, 30, [0xd800]);
    SampleAdmissible(k, 20, 30, [0xd800]);
    assert [a][1..] == [];
    assert Sum(PostingCount(k), [a]) == PostingCount(k)(a) + Sum(PostingCount(k), []);
    assert SegmentIds(k, SampleLineage(), [a]) == {SegmentIdOf(k, SampleLineage())(a)};
  }

  lemma ClashingCheckable(k: Kernel, texts: map<Plane, Text>)
    requires PlainKernel(k) && ProperTexts(k, texts)
    ensures Checkable(k, SampleInput(k, texts, ClashingAtoms(k)))
  {
    SampleValid(k, texts, ClashingAtoms(k), 20, 30, [97]);
    SampleValid(k, texts, ClashingAtoms(k), 21, 31, [97]);
    SamplePlanesValid(k, texts, ClashingAtoms(k));
    ClashingWithinBudget(k, texts);
  }

  lemma HalfPairCheckable(k: Kernel, texts: map<Plane, Text>)
    requires PlainKernel(k) && ProperTexts(k, texts)
    ensures Checkable(k, SampleInput(k, texts, HalfPairAtoms(k)))
  {
    SampleValid(k, texts, HalfPairAtoms(k), 20, 30, [0xd800]);
    SamplePlanesValid(k, texts, HalfPairAtoms(k));
    HalfPairWithinBudget(k, texts);
  }

  /** An input every check of the build accepts, and whose names it can print, but whose atoms clash. */
  lemma SomeAcceptedInputFails(k: Kernel, texts: map<Plane, Text>)
    requires PlainKernel(k) && ProperTexts(k, texts)
    ensures
      var input := SampleInput(k, texts, ClashingAtoms(k));
      Checkable(k, input) && NamesScalar(input) && !Buildable(k, input)
  {
    var input := SampleInput(k, texts, ClashingAtoms(k));
    ClashingCheckable(k, texts);
    assert Scalar([97]) && Scalar([]);
    forall plane | plane in input.planes ensures Scalar(input.planes[plane].text) { assert plane in texts; }
    assert AtomScalar(input.atoms[0]) && AtomScalar(input.atoms[1]);
    BuildableExactly(k, input);
    assert !Apart(input.atoms[0], input.atoms[1]);
  }

  /** And one that every check accepts, and whose atoms do not clash, but with a name that cannot be printed. */
  lemma SomeNameFails(k: Kernel, texts: map<Plane, Text>)
    requires PlainKernel(k) && ProperTexts(k, texts)
    ensures
      var input := SampleInput(k, texts, HalfPairAtoms(k));
      Checkable(k, input) && TuplesApart(input.atoms) && !Buildable(k, input)
  {
    var input := SampleInput(k, texts, HalfPairAtoms(k));
    HalfPairCheckable(k, texts);
    assert !AtomScalar(input.atoms[0]) by { assert !Scalar([0xd800]); }
    BuildableExactly(k, input);
  }
}
