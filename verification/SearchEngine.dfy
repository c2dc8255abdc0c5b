/** The process-local reader of one warmed generation. */
module SearchEngine {
  import opened Wrappers
  import opened Sequences
  import opened Sorting
  import opened SearchModel
  import opened SearchFlat
  import opened SearchIndex
  import opened SearchRefinement
  import opened SearchScope
  import opened SearchInventory
  import opened SearchBuild
  import opened SearchGeneration
  import opened SearchWarm
  import opened SearchLifecycle

  datatype Handle = Handle(key: Active, segments: seq<SegmentRows>)

  predicate ValidReader(reader: Reader) {
    && ValidText(reader.principal) && ValidText(reader.membership)
    && (forall i | 0 <= i < |Grants(reader)| :: 1 <= |Grants(reader)[i]| <= 512)
    && (forall i | 0 < i < |Grants(reader)| :: Less(Grants(reader)[i - 1], Grants(reader)[i]))
  }

  // ---------------------------------------------------------------- answers do not depend on the order of the atoms

  lemma SearchForgetsOrder(k: Kernel, a: seq<Atom>, b: seq<Atom>, terms: seq<Term>, request: Request, limit: nat)
    requires multiset(a) == multiset(b) && DistinctAtoms(a)
    ensures FlatSearch(k, a, terms, request, limit) == FlatSearch(k, b, terms, request, limit)
  {
    FilterPermutes(VisibleTo(request), a, b);
    FilterDistinct(VisibleTo(request), IdOf(), a);
    FlatSearchSeesOnlyVisible(k, a, b, terms, request, limit);
  }

  lemma ListForgetsOrder(a: seq<Atom>, b: seq<Atom>, request: Request, limit: nat)
    requires multiset(a) == multiset(b) && DistinctAtoms(a)
    ensures FlatList(a, request, limit) == FlatList(b, request, limit)
  {
    FilterPermutes(VisibleTo(request), a, b);
    FilterTwice(VisibleTo(request), b);
    ListAsIfRebuilt(a, Filter(VisibleTo(request), b), request, limit);
  }

  lemma ReadForgetsOrder(a: seq<Atom>, b: seq<Atom>, ids: seq<Digest>, request: Request)
    requires multiset(a) == multiset(b) && DistinctAtoms(a)
    ensures FlatRead(a, ids, request) == FlatRead(b, ids, request)
  {
    var va, vb := Filter(VisibleTo(request), a), Filter(VisibleTo(request), b);
    FilterPermutes(VisibleTo(request), a, b);
    FilterDistinct(VisibleTo(request), IdOf(), a);
    MapPermutes(IdOf(), va, vb);
    DistinctPermutes(Map(IdOf(), va), Map(IdOf(), vb));
    forall id | id in ids ensures OpenAtom(va)(id) == OpenAtom(vb)(id) { OpenForgetsOrder(va, vb, id); }
    FlatMapSame(OpenAtom(va), OpenAtom(vb), ids);
  }

  lemma OpenForgetsOrder(a: seq<Atom>, b: seq<Atom>, id: Digest)
    requires multiset(a) == multiset(b) && DistinctAtoms(a) && DistinctAtoms(b)
    ensures OpenAtom(a)(id) == OpenAtom(b)(id)
  {
    forall x ensures x in a <==> x in b { assert x in multiset(a) <==> x in multiset(b); }
    if HasAtom(a, id) {
      var x :| x in a && x.at.atomId == id;
      OnlyHasId(a, x);
      OnlyHasId(b, x);
    } else {
      FilterNone(HasId(id), a);
      FilterNone(HasId(id), b);
    }
  }

  lemma RecordsForgetOrder(r: Result<seq<RecordRow>, SearchError>, a: seq<Atom>, b: seq<Atom>)
    requires multiset(a) == multiset(b) && RecordAnswer(r, a)
    ensures RecordAnswer(r, b)
  {
    forall x ensures x in a <==> x in b { assert x in multiset(a) <==> x in multiset(b); }
    assert Consistent(a) == Consistent(b);
    if Consistent(a) {
      forall row | row in r.value ensures RowOf(row, b) {
        assert RowOf(row, a);
        SumPermutes(InRecord(row.record), a, b);
        var x :| x in a && RowAgrees(row, x);
        assert x in b;
      }
    }
  }

  /** What search answers, given the atoms behind the pointer: the checks in the order the code makes them. */
  function SearchAnswer(k: Kernel, warm: bool, atoms: seq<Atom>, request: Request, query: Text, limit: int): Result<Found, SearchError> {
    if !ValidReader(request.reader) then Failure(InvalidReader)
    else if !(1 <= limit <= 10) then Failure(InvalidLimit)
    else if !warm then Failure(HandleUnavailable)
    else if k.query(query).None? then Failure(InvalidQuery)
    else if !Granted(request) then Failure(ProjectNotGranted)
    else Success(FlatSearch(k, atoms, k.query(query).value, request, limit))
  }

  function ListAnswer(warm: bool, atoms: seq<Atom>, request: Request, limit: int): Result<Found, SearchError> {
    if !ValidReader(request.reader) then Failure(InvalidReader)
    else if !(1 <= limit <= 50) then Failure(InvalidLimit)
    else if !warm then Failure(HandleUnavailable)
    else if !Granted(request) then Failure(ProjectNotGranted)
    else Success(FlatList(atoms, request, limit))
  }

  /** The pointer is that of a generation built of this input. */
  ghost predicate Names(k: Kernel, baseline: map<Plane, Digest>, active: Active, input: BuildInput, built: Tree) {
    Buildable(k, input) && IsBuilt(k, input, built) && baseline == input.baseline && active == ActiveOf(k, built)
  }

  class Engine {
    var handle: Option<Handle>
    /** The atoms the warmed generation was built from, and how its segments hold them. */
    ghost var atoms: seq<Atom>
    ghost var groups: seq<seq<Atom>>

    constructor ()
      ensures handle == None
    {
      handle := None;
      atoms, groups := [], [];
    }

    ghost predicate Valid(k: Kernel)
      reads this
    {
      handle.Some? ==>
        && Indexes(k, handle.value.segments, groups)
        && DistinctAtoms(Concat(groups)) && multiset(Concat(groups)) == multiset(atoms)
    }

    predicate Warm(active: Active)
      reads this
    {
      handle.Some? && handle.value.key == active
    }

    /**
     * Warming: under any published pointer, whatever the directory holds, the handle
     * is set exactly when the directory passes the full validation. If that
     * pointer is that of a built generation, the handle serves the atoms it was
     * built from, and an untouched built tree always passes.
     */
    method WarmActive(k: Kernel, baseline: map<Plane, Digest>, active: Active, tree: Tree, ghost input: BuildInput, ghost built: Tree)
      requires k.Valid()
      modifies this
      ensures handle.Some? <==> ValidTree(k, baseline, active, tree)
      ensures handle.Some? ==> Warm(active) && handle.value.segments == RowsOfTree(tree, tree.manifest.body.segments)
      ensures Names(k, baseline, active, input, built) ==> Valid(k) && (handle.Some? ==> atoms == input.atoms)
      ensures Names(k, baseline, active, input, built) && tree == built ==> handle.Some?
    {
      handle := None;
      atoms, groups := input.atoms, [];
      var rows := ValidateTree(k, baseline, active, tree);
      if rows.Success? { handle := Some(Handle(active, rows.value)); }
      if Names(k, baseline, active, input, built) {
        BuildThenWarm(k, input, built);
        if ValidTree(k, baseline, active, tree) {
          PointerBindsRows(k, baseline, active, tree, built);
          groups := Groups(k, input, built);
        }
      }
    }

    method Clear()
      modifies this
      ensures handle == None
    {
      handle := None;
    }

    method Search(k: Kernel, active: Active, request: Request, query: Text, limit: int) returns (r: Result<Found, SearchError>)
      requires k.Valid() && Valid(k)
      ensures r == SearchAnswer(k, Warm(active), atoms, request, query, limit)
    {
      if !ValidReader(request.reader) { return Failure(InvalidReader); }
      if !(1 <= limit <= 10) { return Failure(InvalidLimit); }
      if !Warm(active) { return Failure(HandleUnavailable); }
      var terms := k.query(query);
      if terms.None? { return Failure(InvalidQuery); }
      SearchForgetsOrder(k, Concat(groups), atoms, terms.value, request, limit);
      r := SearchSegments(k, handle.value.segments, terms.value, request, limit, groups);
    }

    method List(k: Kernel, active: Active, request: Request, limit: int) returns (r: Result<Found, SearchError>)
      requires Valid(k)
      ensures r == ListAnswer(Warm(active), atoms, request, limit)
    {
      if !ValidReader(request.reader) { return Failure(InvalidReader); }
      if !(1 <= limit <= 50) { return Failure(InvalidLimit); }
      if !Warm(active) { return Failure(HandleUnavailable); }
      ListForgetsOrder(Concat(groups), atoms, request, limit);
      r := ListSegments(k, handle.value.segments, request, limit, groups);
    }

    method Records(k: Kernel, active: Active, request: Request) returns (r: Result<seq<RecordRow>, SearchError>)
      requires Valid(k)
      ensures !ValidReader(request.reader) ==> r == Failure(InvalidReader)
      ensures ValidReader(request.reader) && !Warm(active) ==> r == Failure(HandleUnavailable)
      ensures ValidReader(request.reader) && Warm(active) && !Granted(request) ==> r == Failure(ProjectNotGranted)
      ensures ValidReader(request.reader) && Warm(active) && Granted(request) ==> RecordAnswer(r, Filter(VisibleTo(request), atoms))
    {
      if !ValidReader(request.reader) { return Failure(InvalidReader); }
      if !Warm(active) { return Failure(HandleUnavailable); }
      r := ListRecords(k, handle.value.segments, request, groups);
      if Granted(request) {
        FilterPermutes(VisibleTo(request), Concat(groups), atoms);
        RecordsForgetOrder(r, Filter(VisibleTo(request), Concat(groups)), Filter(VisibleTo(request), atoms));
      }
    }

    /** One through ten distinct atoms, named by their identities. */
    method Read(k: Kernel, active: Active, request: Request, ids: seq<Digest>) returns (r: Result<seq<Item>, SearchError>)
      requires Valid(k)
      ensures r ==
        if !ValidReader(request.reader) then Failure(InvalidReader)
        else if !(1 <= |ids| <= 10) || |set id | id in ids| != |ids| then Failure(InvalidLimit)
        else if !Warm(active) then Failure(HandleUnavailable)
        else if !Granted(request) then Failure(ProjectNotGranted)
        else Success(FlatRead(atoms, ids, request))
    {
      if !ValidReader(request.reader) { return Failure(InvalidReader); }
      if !(1 <= |ids| <= 10) || |set id | id in ids| != |ids| { return Failure(InvalidLimit); }
      if !Warm(active) { return Failure(HandleUnavailable); }
      ReadForgetsOrder(Concat(groups), atoms, ids, request);
      r := ReadSegments(k, handle.value.segments, ids, request, groups);
    }
  }
}
