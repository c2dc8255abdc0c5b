/** What a build promises: warming accepts it, the published pointer binds it, and its atoms are served. */
module SearchLifecycle {
  import opened Sequences
  import opened Sorting
  import opened SearchModel
  import opened SearchIndex
  import opened SearchRefinement
  import opened SearchScope
  import opened SearchBuild
  import opened SearchGeneration
  import opened SearchWarm
  import opened SearchWarmed

  /** The pointer the Authority publishes for a generation. */
  function ActiveOf(k: Kernel, tree: Tree): Active {
    Active(tree.manifest.generationId, k.sha(GenerationText(tree.manifest)), tree.manifest.body.retrievalContract, tree.manifest.body.head)
  }

  function Groups(k: Kernel, input: BuildInput, tree: Tree): seq<seq<Atom>> {
    Map(InOrder(k, input), DeclaredIds(tree.manifest.body))
  }

  function Warmed(tree: Tree): seq<SegmentRows>
    requires AllDeclared(tree)
  {
    RowsOfTree(tree, tree.manifest.body.segments)
  }

  lemma BuiltDeclares(k: Kernel, input: BuildInput, tree: Tree)
    requires IsBuilt(k, input, tree)
    ensures DeclaresSegments(tree) && AllDeclared(tree)
  {
    var declared := DeclaredIds(tree.manifest.body);
    forall id ensures id in declared <==> id in tree.segments {
      assert id in declared <==> id in SegmentIds(k, input.lineage, input.atoms);
      assert id in tree.segments <==> id in tree.segments.Keys;
    }
    DeclaredIsListed(tree);
  }

  lemma BuiltEntry(k: Kernel, input: BuildInput, tree: Tree, i: nat)
    requires IsBuilt(k, input, tree) && i < |tree.manifest.body.segments|
    ensures
      var id := tree.manifest.body.segments[i].segmentId;
      && id == DeclaredIds(tree.manifest.body)[i]
      && ValidPlanes(k, input) && id in SegmentIds(k, input.lineage, input.atoms)
      && id in tree.segments && tree.segments[id] == SegmentFor(k, input, id)
      && tree.manifest.body.segments[i] == EntryFor(k, tree.segments[id].manifest)
  {
    var body := tree.manifest.body;
    var ids := DeclaredIds(body);
    forall j | 0 <= j < |ids| ensures tree.segments[ids[j]].manifest.segmentId == ids[j] {
      assert ids[j] in tree.segments.Keys;
    }
    EntriesHaveIds(k, tree.segments, ids);
    assert ids[i] in tree.segments.Keys;
    assert tree.segments != map[];
  }

  lemma BuiltSegmentsValid(k: Kernel, input: BuildInput, tree: Tree)
    requires k.Valid() && Buildable(k, input) && IsBuilt(k, input, tree) && AllDeclared(tree)
    ensures AllValid(k, input.baseline, tree, |tree.manifest.body.segments|)
  {
    var body := tree.manifest.body;
    forall i | 0 <= i < |body.segments|
      ensures ValidSegment(k, input.baseline, body, body.segments[i], tree.segments[body.segments[i].segmentId])
    {
      BuiltEntry(k, input, tree, i);
      BuiltSegmentValid(k, input, body.segments, body.segments[i].segmentId);
    }
  }

  /** The warmed rows hold exactly the input atoms, each in one segment. */
  lemma WarmedHoldsAtoms(k: Kernel, input: BuildInput, tree: Tree)
    requires k.Valid() && Buildable(k, input) && IsBuilt(k, input, tree)
    ensures AllDeclared(tree)
    ensures Indexes(k, Warmed(tree), Groups(k, input, tree))
    ensures multiset(Concat(Groups(k, input, tree))) == multiset(input.atoms)
    ensures DistinctAtoms(Concat(Groups(k, input, tree)))
  {
    BuiltDeclares(k, input, tree);
    var ids, groups, rows := DeclaredIds(tree.manifest.body), Groups(k, input, tree), Warmed(tree);
    GroupsAreAtoms(k, input, ids);
    forall i | 0 <= i < |groups| ensures Holding(k, rows[i], groups[i]) {
      BuiltEntry(k, input, tree, i);
      BuiltSegmentHolds(k, input, ids[i]);
    }
  }

  lemma {:induction false} IdsOfRows(k: Kernel, segments: seq<SegmentRows>, groups: seq<seq<Atom>>)
    requires Indexes(k, segments, groups)
    ensures FlatMap(IdsIn(), segments) == Map(IdOf(), Concat(groups))
  {
    if groups != [] {
      IdsOfRows(k, segments[1..], groups[1..]);
      MapMap(FactOfAtom(k), FactRowId(), IdOf(), groups[0]);
      MapConcat(IdOf(), groups[0], Concat(groups[1..]));
    }
  }

  lemma {:induction false} PostingsOfRows(k: Kernel, segments: seq<SegmentRows>, groups: seq<seq<Atom>>)
    requires Indexes(k, segments, groups)
    ensures Sum(PostingsIn(), segments) == Sum(PostingCount(k), Concat(groups))
  {
    if groups != [] {
      PostingsOfRows(k, segments[1..], groups[1..]);
      FlatMapLength(PostingsOfAtom(k), PostingCount(k), groups[0]);
      SamePermutedLength(segments[0].postings, FlatMap(PostingsOfAtom(k), groups[0]));
      SumConcat(PostingCount(k), groups[0], Concat(groups[1..]));
    }
  }

  lemma ShortTable(k: Kernel, atoms: seq<Atom>)
    requires forall a :: a in atoms ==> ByteLength(a.text) <= MAXIMUM_ATOM_TEXT_BYTES
    ensures ShortTexts(ContentByAtom(Map(ContentOfAtom(k), atoms)))
  {
    var rows := Map(ContentOfAtom(k), atoms);
    var content := ContentByAtom(rows);
    ByAtomKeys(ContentAtomId(), rows);
    forall x | x in content ensures ByteLength(content[x].text) <= MAXIMUM_ATOM_TEXT_BYTES {
      var i :| 0 <= i < |rows| && content[x] == rows[i] && ContentAtomId()(rows[i]) == x;
      assert rows[i] == ContentOfAtom(k)(atoms[i]);
      assert atoms[i] in atoms;
    }
  }

  lemma ShortContent(k: Kernel, input: BuildInput, id: Digest)
    requires ValidAtoms(k, input) && WithinBudget(k, input)
    requires ValidPlanes(k, input) && id in SegmentIds(k, input.lineage, input.atoms)
    ensures ShortTexts(RowsOf(SegmentFor(k, input, id)).content)
  {
    ReadBack(k, input, id);
    OrderedGroup(k, input, id);
    ShortTable(k, InOrder(k, input)(id));
  }

  lemma WarmedShort(k: Kernel, input: BuildInput, tree: Tree)
    requires Buildable(k, input) && IsBuilt(k, input, tree) && AllDeclared(tree)
    ensures forall s :: s in Warmed(tree) ==> ShortTexts(s.content)
  {
    var rows := Warmed(tree);
    forall s | s in rows ensures ShortTexts(s.content) {
      var i :| 0 <= i < |rows| && rows[i] == s;
      BuiltEntry(k, input, tree, i);
      ShortContent(k, input, tree.manifest.body.segments[i].segmentId);
    }
  }

  lemma WarmedAtoms(k: Kernel, input: BuildInput, tree: Tree)
    requires k.Valid() && Buildable(k, input) && IsBuilt(k, input, tree) && AllDeclared(tree)
    ensures |FlatMap(IdsIn(), Warmed(tree))| == |input.atoms| && Distinct(FlatMap(IdsIn(), Warmed(tree)))
  {
    WarmedHoldsAtoms(k, input, tree);
    IdsOfRows(k, Warmed(tree), Groups(k, input, tree));
    SamePermutedLength(Concat(Groups(k, input, tree)), input.atoms);
  }

  lemma WarmedPostings(k: Kernel, input: BuildInput, tree: Tree)
    requires k.Valid() && Buildable(k, input) && IsBuilt(k, input, tree) && AllDeclared(tree)
    ensures Sum(PostingsIn(), Warmed(tree)) == Sum(PostingCount(k), input.atoms)
  {
    WarmedHoldsAtoms(k, input, tree);
    PostingsOfRows(k, Warmed(tree), Groups(k, input, tree));
    SumPermutes(PostingCount(k), Concat(Groups(k, input, tree)), input.atoms);
  }

  lemma WarmedSegments(k: Kernel, input: BuildInput, tree: Tree)
    requires IsBuilt(k, input, tree) && AllDeclared(tree)
    ensures |Warmed(tree)| == |SegmentIds(k, input.lineage, input.atoms)|
  {
    OrderedLength(DeclaredIds(tree.manifest.body), SegmentIds(k, input.lineage, input.atoms));
  }

  lemma OrderedLength(ids: seq<Digest>, members: set<Digest>)
    requires OrderedIds(ids, members)
    ensures |ids| == |members|
  {
    forall id ensures id in ids <==> id in members { assert id in ids <==> id in members; }
    DistinctLength(ids, members);
  }

  lemma WarmedWithinBudget(k: Kernel, input: BuildInput, tree: Tree)
    requires k.Valid() && Buildable(k, input) && IsBuilt(k, input, tree) && AllDeclared(tree)
    ensures RowsWithinBudget(Warmed(tree))
  {
    WarmedAtoms(k, input, tree);
    WarmedPostings(k, input, tree);
    WarmedSegments(k, input, tree);
    WarmedShort(k, input, tree);
  }

  /** Build, then warm: a built generation passes the full validation, and serves the atoms it was built from. */
  lemma BuildThenWarm(k: Kernel, input: BuildInput, tree: Tree)
    requires k.Valid() && Buildable(k, input) && IsBuilt(k, input, tree)
    ensures ValidTree(k, input.baseline, ActiveOf(k, tree), tree)
    ensures Indexes(k, Warmed(tree), Groups(k, input, tree))
    ensures multiset(Concat(Groups(k, input, tree))) == multiset(input.atoms)
    ensures DistinctAtoms(Concat(Groups(k, input, tree)))
  {
    BuiltDeclares(k, input, tree);
    WarmedHoldsAtoms(k, input, tree);
    BuiltSegmentsValid(k, input, tree);
    WarmedAtoms(k, input, tree);
    WarmedWithinBudget(k, input, tree);
    assert ValidPolicies(PoliciesOf(input));
  }

  // ---------------------------------------------------------------- order independence

  lemma GroupPermutes(k: Kernel, a: BuildInput, b: BuildInput, id: Digest)
    requires multiset(a.atoms) == multiset(b.atoms) && a.lineage == b.lineage
    ensures multiset(GroupFor(k, a, id)) == multiset(GroupFor(k, b, id))
  {
    FilterPermutes(InSegment(k, a.lineage, id), a.atoms, b.atoms);
  }

  lemma IdsPermute(k: Kernel, lineage: Lineage, a: seq<Atom>, b: seq<Atom>)
    requires multiset(a) == multiset(b)
    ensures SegmentIds(k, lineage, a) == SegmentIds(k, lineage, b)
  {
    forall x ensures x in a <==> x in b { assert x in multiset(a) <==> x in multiset(b); }
  }

  /** The manifest of a segment does not depend on the order its atoms came in. */
  lemma ManifestForgetsOrder(k: Kernel, id: Digest, tuple: PolicyTuple, a: seq<Atom>, b: seq<Atom>)
    requires k.Valid() && multiset(a) == multiset(b) && DistinctAtoms(a)
    ensures ManifestOf(k, id, tuple, a) == ManifestOf(k, id, tuple, b)
  {
    RowsForgetOrder(FactKey(), FactOfAtom(k), a, b);
    RowsForgetOrder(ContentKey(), ContentOfAtom(k), a, b);
    RowsForgetOrder(DocumentKey(), DocumentOfAtom(k), a, b);
    PostingsProper(k, a);
    PostingsForgetOrder(k, a, b);
  }

  lemma SegmentForgetsOrder(k: Kernel, a: BuildInput, b: BuildInput, id: Digest)
    requires k.Valid() && ValidAtoms(k, a) && b == a.(atoms := b.atoms) && multiset(a.atoms) == multiset(b.atoms)
    requires ValidPlanes(k, a) && id in SegmentIds(k, a.lineage, a.atoms) && id in SegmentIds(k, b.lineage, b.atoms)
    ensures SegmentFor(k, a, id).manifest == SegmentFor(k, b, id).manifest
  {
    GroupPermutes(k, a, b, id);
    OrderedGroup(k, a, id);
    var y := FirstAtom(k, b, id);
    TupleFor(k, a, id, y);
    TupleFor(k, b, id, y);
    ManifestForgetsOrder(k, id, SegmentFor(k, a, id).manifest.tuple, GroupFor(k, a, id), GroupFor(k, b, id));
  }

  lemma {:induction false} EntriesForgetOrder(k: Kernel, s: map<Digest, SegmentFiles>, t: map<Digest, SegmentFiles>, ids: seq<Digest>)
    requires forall i :: 0 <= i < |ids| ==> ids[i] in s && ids[i] in t && s[ids[i]].manifest == t[ids[i]].manifest
    ensures EntriesOf(k, s, ids) == EntriesOf(k, t, ids)
  {
    if ids != [] {
      forall i | 0 <= i < |ids[1..]| ensures ids[1..][i] in s && ids[1..][i] in t && s[ids[1..][i]].manifest == t[ids[1..][i]].manifest {
        assert ids[1..][i] == ids[i + 1];
      }
      EntriesForgetOrder(k, s, t, ids[1..]);
    }
  }

  /** The generation, and with it its identity, does not depend on the order of the input atoms. */
  lemma IdentityForgetsOrder(k: Kernel, a: BuildInput, b: BuildInput, s: Tree, t: Tree)
    requires k.Valid() && Buildable(k, a) && IsBuilt(k, a, s) && IsBuilt(k, b, t)
    requires b == a.(atoms := b.atoms) && multiset(a.atoms) == multiset(b.atoms)
    ensures s.manifest == t.manifest
  {
    var ids := DeclaredIds(s.manifest.body);
    IdsPermute(k, a.lineage, a.atoms, b.atoms);
    OrderedIdsUnique(ids, DeclaredIds(t.manifest.body), SegmentIds(k, a.lineage, a.atoms));
    forall i | 0 <= i < |ids| ensures ids[i] in s.segments && ids[i] in t.segments && s.segments[ids[i]].manifest == t.segments[ids[i]].manifest {
      BuiltEntry(k, a, s, i);
      assert ids[i] in t.segments.Keys;
      SegmentForgetsOrder(k, a, b, ids[i]);
    }
    EntriesForgetOrder(k, s.segments, t.segments, ids);
    AtomsSeparate(a.atoms);
    SortForgetsOrder(AtomKey(), a.atoms, b.atoms);
  }

  lemma AtomsSeparate(atoms: seq<Atom>)
    requires DistinctAtoms(atoms)
    ensures Separates(AtomKey(), atoms)
  {
    forall i, j | 0 <= i < |atoms| && 0 <= j < |atoms| && AtomKey()(atoms[i]) == AtomKey()(atoms[j]) ensures atoms[i] == atoms[j] {
      assert AtomKey()(atoms[i])[2] == AtomKey()(atoms[j])[2];
      DistinctAt(Map(IdOf(), atoms), i, j);
    }
  }

  // ---------------------------------------------------------------- the pointer binds the rows

  /** Two directories that pass validation under one pointer serve the same rows: nothing can be swapped unnoticed. */
  lemma PointerBindsRows(k: Kernel, baseline: map<Plane, Digest>, active: Active, s: Tree, t: Tree)
    requires k.Valid() && ValidTree(k, baseline, active, s) && ValidTree(k, baseline, active, t)
    ensures s.manifest == t.manifest && Warmed(s) == Warmed(t)
  {
    k.ShaInjective(GenerationText(s.manifest), GenerationText(t.manifest));
    RowsBound(k, baseline, s, t, |s.manifest.body.segments|);
    SameRows(s, t, s.manifest.body.segments);
  }

  lemma RowsBound(k: Kernel, baseline: map<Plane, Digest>, s: Tree, t: Tree, n: nat)
    requires k.Valid() && s.manifest == t.manifest && n == |s.manifest.body.segments|
    requires AllDeclared(s) && AllDeclared(t) && AllValid(k, baseline, s, n) && AllValid(k, baseline, t, n)
    ensures forall i :: 0 <= i < n ==>
      RowsOf(s.segments[s.manifest.body.segments[i].segmentId]) == RowsOf(t.segments[s.manifest.body.segments[i].segmentId])
  {
    forall i | 0 <= i < n
      ensures RowsOf(s.segments[s.manifest.body.segments[i].segmentId]) == RowsOf(t.segments[s.manifest.body.segments[i].segmentId])
    {
      RowBound(k, baseline, s, t, i, n);
    }
  }

  lemma SameRows(s: Tree, t: Tree, entries: seq<SegmentEntry>)
    requires forall i :: 0 <= i < |entries| ==> entries[i].segmentId in s.segments && entries[i].segmentId in t.segments
    requires forall i :: 0 <= i < |entries| ==> RowsOf(s.segments[entries[i].segmentId]) == RowsOf(t.segments[entries[i].segmentId])
    ensures RowsOfTree(s, entries) == RowsOfTree(t, entries)
  {
  }

  lemma RowBound(k: Kernel, baseline: map<Plane, Digest>, s: Tree, t: Tree, i: nat, n: nat)
    requires k.Valid() && s.manifest == t.manifest && i < n == |s.manifest.body.segments|
    requires AllDeclared(s) && AllDeclared(t) && AllValid(k, baseline, s, n) && AllValid(k, baseline, t, n)
    ensures RowsOf(s.segments[s.manifest.body.segments[i].segmentId]) == RowsOf(t.segments[s.manifest.body.segments[i].segmentId])
  {
    var entry := s.manifest.body.segments[i];
    assert ValidSegment(k, baseline, s.manifest.body, entry, s.segments[entry.segmentId]);
    assert ValidSegment(k, baseline, t.manifest.body, entry, t.segments[entry.segmentId]);
    EntryBindsRows(k, entry, s.segments[entry.segmentId], t.segments[entry.segmentId]);
  }

  lemma EntryBindsRows(k: Kernel, entry: SegmentEntry, s: SegmentFiles, t: SegmentFiles)
    requires k.Valid() && EntryFor(k, s.manifest) == entry && EntryFor(k, t.manifest) == entry
    requires ValidRoots(k, s.manifest, ReadOf(s)) && ValidRoots(k, t.manifest, ReadOf(t))
    ensures RowsOf(s) == RowsOf(t)
  {
    k.ShaInjective(SegmentManifestText(s.manifest), SegmentManifestText(t.manifest));
    var m, a, b := s.manifest, ReadOf(s), ReadOf(t);
    k.ShaInjective(FactsRoot(m.segmentId, a.facts), FactsRoot(m.segmentId, b.facts));
    k.ShaInjective(ContentRoot(m.segmentId, a.content), ContentRoot(m.segmentId, b.content));
    k.ShaInjective(LexicalRoot(m.segmentId, a.documents, a.postings), LexicalRoot(m.segmentId, b.documents, b.postings));
  }
}
