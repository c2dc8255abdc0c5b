/** A reader's answers, as if the generation were built of what it may see. */
module SearchRebuild {
  import opened Wrappers
  import opened Sequences
  import opened Sorting
  import opened SearchModel
  import opened SearchFlat
  import opened SearchRefinement
  import opened SearchScope
  import opened SearchInventory
  import opened SearchBuild
  import opened SearchGeneration
  import opened SearchStorable
  import opened SearchWarmed
  import opened SearchLifecycle
  import opened SearchEngine

  /** Exactly the atoms the request may see, in any order. */
  ghost predicate Sees(request: Request, atoms: seq<Atom>, seen: seq<Atom>) {
    multiset(seen) == multiset(Filter(VisibleTo(request), atoms))
  }

  // ---------------------------------------------------------------- what may be seen can be built

  lemma SeenMembers(request: Request, atoms: seq<Atom>, seen: seq<Atom>)
    requires Sees(request, atoms, seen) && DistinctAtoms(atoms)
    ensures DistinctAtoms(seen) && |seen| <= |atoms| && forall a :: a in seen ==> a in atoms
  {
    var visible := Filter(VisibleTo(request), atoms);
    FilterMembers(VisibleTo(request), atoms);
    FilterDistinct(VisibleTo(request), IdOf(), atoms);
    MapPermutes(IdOf(), visible, seen);
    DistinctPermutes(Map(IdOf(), visible), Map(IdOf(), seen));
    SamePermutedLength(visible, seen);
    forall a | a in seen ensures a in atoms { assert a in multiset(seen) && a in multiset(visible); }
  }

  lemma FewerIds(some: set<Digest>, all: set<Digest>)
    requires some <= all
    ensures |some| <= |all|
  {
    assert all == some + (all - some);
  }

  lemma SeenWithinBudget(k: Kernel, input: BuildInput, request: Request, seen: seq<Atom>)
    requires Sees(request, input.atoms, seen) && DistinctAtoms(input.atoms) && WithinBudget(k, input)
    ensures WithinBudget(k, input.(atoms := seen))
  {
    SeenMembers(request, input.atoms, seen);
    FilterSum(VisibleTo(request), PostingCount(k), input.atoms);
    SumPermutes(PostingCount(k), seen, Filter(VisibleTo(request), input.atoms));
    FewerIds(SegmentIds(k, input.lineage, seen), SegmentIds(k, input.lineage, input.atoms));
  }

  lemma SeenValid(k: Kernel, input: BuildInput, request: Request, seen: seq<Atom>)
    requires Sees(request, input.atoms, seen) && ValidAtoms(k, input)
    ensures ValidAtoms(k, input.(atoms := seen))
  {
    SeenMembers(request, input.atoms, seen);
    forall a | a in seen ensures ValidAtom(k, input.(atoms := seen), a) { assert ValidAtom(k, input, a); }
  }

  lemma SeenApart(request: Request, atoms: seq<Atom>, seen: seq<Atom>)
    requires Sees(request, atoms, seen) && DistinctAtoms(atoms) && TuplesApart(atoms)
    ensures TuplesApart(seen)
  {
    SeenMembers(request, atoms, seen);
    TuplesApartMembers(atoms);
    TuplesApartMembers(seen);
  }

  lemma SeenNames(input: BuildInput, request: Request, seen: seq<Atom>)
    requires Sees(request, input.atoms, seen) && DistinctAtoms(input.atoms) && NamesScalar(input)
    ensures NamesScalar(input.(atoms := seen))
  {
    SeenMembers(request, input.atoms, seen);
    forall i | 0 <= i < |seen| ensures AtomScalar(seen[i]) {
      assert seen[i] in input.atoms;
      var j :| 0 <= j < |input.atoms| && input.atoms[j] == seen[i];
    }
  }

  lemma SamePlanes(k: Kernel, input: BuildInput, seen: seq<Atom>)
    requires ValidPlanes(k, input)
    ensures ValidPlanes(k, input.(atoms := seen))
  {
  }

  lemma SeenCheckable(k: Kernel, input: BuildInput, request: Request, seen: seq<Atom>)
    requires Checkable(k, input) && Sees(request, input.atoms, seen)
    ensures Checkable(k, input.(atoms := seen))
  {
    SeenMembers(request, input.atoms, seen);
    SeenWithinBudget(k, input, request, seen);
    SeenValid(k, input, request, seen);
    if seen != [] { SamePlanes(k, input, seen); }
  }

  /** What can be built of all atoms can be built of those a request may see. */
  lemma SeenBuildable(k: Kernel, input: BuildInput, request: Request, seen: seq<Atom>)
    requires k.Valid() && Buildable(k, input) && Sees(request, input.atoms, seen)
    ensures Buildable(k, input.(atoms := seen))
  {
    BuildableExactly(k, input);
    SeenCheckable(k, input, request, seen);
    SeenApart(request, input.atoms, seen);
    SeenNames(input, request, seen);
    BuildableExactly(k, input.(atoms := seen));
  }

  // ---------------------------------------------------------------- and is met in the same order

  /** Segments follow their identities, and the atoms of a segment the record log. */
  function ServedKey(k: Kernel, lineage: Lineage): Atom -> Key {
    (a: Atom) => [SegmentIdOf(k, lineage)(a), a.at.position, a.at.order, a.at.atomId]
  }

  lemma {:induction false} FilterSorted<T>(key: T -> Key, p: T -> bool, s: seq<T>)
    requires Sorted(key, s)
    ensures Sorted(key, Filter(p, s))
  {
    if s != [] {
      TailSorted(key, s);
      FilterSorted(key, p, s[1..]);
      var rest := Filter(p, s[1..]);
      FilterMembers(p, s[1..]);
      forall j | 0 <= j < |rest| ensures !Less(key(rest[j]), key(s[0])) {
        var m :| 0 <= m < |s[1..]| && s[1..][m] == rest[j];
        assert !Less(key(s[m + 1]), key(s[0]));
      }
    }
  }

  lemma ServedLess(k: Kernel, lineage: Lineage, a: Atom, b: Atom)
    requires !Less([SegmentIdOf(k, lineage)(b)], [SegmentIdOf(k, lineage)(a)])
    requires SegmentIdOf(k, lineage)(a) == SegmentIdOf(k, lineage)(b) ==> !Less(AtomKey()(b), AtomKey()(a))
    ensures !Less(ServedKey(k, lineage)(b), ServedKey(k, lineage)(a))
  {
    var x, y := ServedKey(k, lineage)(a), ServedKey(k, lineage)(b);
    assert x[1..] == AtomKey()(a) && y[1..] == AtomKey()(b);
  }

  lemma {:induction false} ServedMembers(k: Kernel, input: BuildInput, ids: seq<Digest>)
    ensures forall a :: a in Concat(Map(InOrder(k, input), ids)) ==> SegmentIdOf(k, input.lineage)(a) in ids
  {
    if ids != [] {
      ServedMembers(k, input, ids[1..]);
      SortMembers(AtomKey(), GroupFor(k, input, ids[0]));
      GroupMembers(k, input, ids[0]);
      assert Map(InOrder(k, input), ids)[1..] == Map(InOrder(k, input), ids[1..]);
    }
  }

  lemma {:induction false} ServedSorted(k: Kernel, input: BuildInput, ids: seq<Digest>)
    requires Distinct(ids) && Sorted(IdKey(), ids)
    ensures Sorted(ServedKey(k, input.lineage), Concat(Map(InOrder(k, input), ids)))
  {
    if ids != [] {
      TailSorted(IdKey(), ids);
      assert Distinct(ids[1..]);
      ServedSorted(k, input, ids[1..]);
      var first, rest := InOrder(k, input)(ids[0]), Concat(Map(InOrder(k, input), ids[1..]));
      ServedMembers(k, input, ids[1..]);
      SortSorts(AtomKey(), GroupFor(k, input, ids[0]));
      SortMembers(AtomKey(), GroupFor(k, input, ids[0]));
      GroupMembers(k, input, ids[0]);
      assert Map(InOrder(k, input), ids)[1..] == Map(InOrder(k, input), ids[1..]);
      SegmentFirst(k, input.lineage, ids, first, rest);
    }
  }

  lemma SegmentFirst(k: Kernel, lineage: Lineage, ids: seq<Digest>, first: seq<Atom>, rest: seq<Atom>)
    requires ids != [] && Distinct(ids) && Sorted(IdKey(), ids) && Sorted(AtomKey(), first) && Sorted(ServedKey(k, lineage), rest)
    requires forall a :: a in first ==> SegmentIdOf(k, lineage)(a) == ids[0]
    requires forall a :: a in rest ==> SegmentIdOf(k, lineage)(a) in ids[1..]
    ensures Sorted(ServedKey(k, lineage), first + rest)
  {
    var key, all := ServedKey(k, lineage), first + rest;
    forall i, j | 0 <= i < j < |all| ensures !Less(key(all[j]), key(all[i])) {
      if i < |first| {
        assert all[i] in first;
        if j < |first| {
          assert all[j] in first;
          LessIrreflexive([ids[0]]);
        } else {
          assert all[j] in rest;
          var m :| 0 <= m < |ids[1..]| && ids[1..][m] == SegmentIdOf(k, lineage)(all[j]);
          assert !Less(IdKey()(ids[m + 1]), IdKey()(ids[0]));
        }
        ServedLess(k, lineage, all[i], all[j]);
      }
    }
  }

  lemma ServedSeparates(k: Kernel, lineage: Lineage, atoms: seq<Atom>)
    requires DistinctAtoms(atoms)
    ensures Separates(ServedKey(k, lineage), atoms)
  {
    forall i, j | 0 <= i < |atoms| && 0 <= j < |atoms| && ServedKey(k, lineage)(atoms[i]) == ServedKey(k, lineage)(atoms[j])
      ensures atoms[i] == atoms[j]
    {
      assert ServedKey(k, lineage)(atoms[i])[3] == ServedKey(k, lineage)(atoms[j])[3];
      DistinctAt(Map(IdOf(), atoms), i, j);
    }
  }

  /** What the request sees of the full generation is what it sees of the rebuilt one, atom by atom and in one order. */
  lemma SameView(k: Kernel, input: BuildInput, seen: seq<Atom>, full: Tree, rebuilt: Tree, request: Request)
    requires k.Valid() && Buildable(k, input) && Sees(request, input.atoms, seen)
    requires IsBuilt(k, input, full) && IsBuilt(k, input.(atoms := seen), rebuilt)
    ensures Filter(VisibleTo(request), Concat(Groups(k, input, full)))
      == Filter(VisibleTo(request), Concat(Groups(k, input.(atoms := seen), rebuilt)))
  {
    var narrow := input.(atoms := seen);
    var a, b := Concat(Groups(k, input, full)), Concat(Groups(k, narrow, rebuilt));
    SeenBuildable(k, input, request, seen);
    WarmedHoldsAtoms(k, input, full);
    WarmedHoldsAtoms(k, narrow, rebuilt);
    FilterPermutes(VisibleTo(request), a, input.atoms);
    FilterPermutes(VisibleTo(request), b, seen);
    FilterPermutes(VisibleTo(request), seen, Filter(VisibleTo(request), input.atoms));
    FilterTwice(VisibleTo(request), input.atoms);
    ServedSorted(k, input, DeclaredIds(full.manifest.body));
    ServedSorted(k, narrow, DeclaredIds(rebuilt.manifest.body));
    FilterSorted(ServedKey(k, input.lineage), VisibleTo(request), a);
    FilterSorted(ServedKey(k, input.lineage), VisibleTo(request), b);
    FilterDistinct(VisibleTo(request), IdOf(), a);
    ServedSeparates(k, input.lineage, Filter(VisibleTo(request), a));
    SortedUnique(ServedKey(k, input.lineage), Filter(VisibleTo(request), a), Filter(VisibleTo(request), b));
  }

  // ---------------------------------------------------------------- two generations, one answer

  /**
   * A search of the full generation answers as a search of a generation built
   * of nothing but the atoms that reader and scope can see, and both answer as
   * looking at all atoms one by one.
   */
  method SearchRebuilt(k: Kernel, ghost input: BuildInput, ghost seen: seq<Atom>, full: Tree, rebuilt: Tree,
                           terms: seq<Term>, request: Request, limit: nat)
    returns (a: Result<Found, SearchError>, b: Result<Found, SearchError>)
    requires k.Valid() && Distinct(terms) && Buildable(k, input) && Sees(request, input.atoms, seen)
    requires IsBuilt(k, input, full) && IsBuilt(k, input.(atoms := seen), rebuilt)
    ensures a == b
    ensures a == if Granted(request) then Success(FlatSearch(k, input.atoms, terms, request, limit)) else Failure(ProjectNotGranted)
  {
    ghost var narrow := input.(atoms := seen);
    SeenBuildable(k, input, request, seen);
    WarmedHoldsAtoms(k, input, full);
    WarmedHoldsAtoms(k, narrow, rebuilt);
    SearchForgetsOrder(k, Concat(Groups(k, input, full)), input.atoms, terms, request, limit);
    SearchForgetsOrder(k, Concat(Groups(k, narrow, rebuilt)), seen, terms, request, limit);
    AsIfRebuilt(k, input.atoms, seen, terms, request, limit);
    a := SearchSegments(k, Warmed(full), terms, request, limit, Groups(k, input, full));
    b := SearchSegments(k, Warmed(rebuilt), terms, request, limit, Groups(k, narrow, rebuilt));
  }

  /** And so does a listing. */
  method ListRebuilt(k: Kernel, ghost input: BuildInput, ghost seen: seq<Atom>, full: Tree, rebuilt: Tree, request: Request, limit: nat)
    returns (a: Result<Found, SearchError>, b: Result<Found, SearchError>)
    requires k.Valid() && Buildable(k, input) && Sees(request, input.atoms, seen)
    requires IsBuilt(k, input, full) && IsBuilt(k, input.(atoms := seen), rebuilt)
    ensures a == b
    ensures a == if Granted(request) then Success(FlatList(input.atoms, request, limit)) else Failure(ProjectNotGranted)
  {
    ghost var narrow := input.(atoms := seen);
    SeenBuildable(k, input, request, seen);
    WarmedHoldsAtoms(k, input, full);
    WarmedHoldsAtoms(k, narrow, rebuilt);
    ListForgetsOrder(Concat(Groups(k, input, full)), input.atoms, request, limit);
    ListForgetsOrder(Concat(Groups(k, narrow, rebuilt)), seen, request, limit);
    ListAsIfRebuilt(input.atoms, seen, request, limit);
    a := ListSegments(k, Warmed(full), request, limit, Groups(k, input, full));
    b := ListSegments(k, Warmed(rebuilt), request, limit, Groups(k, narrow, rebuilt));
  }

  /** And opening atoms by their identities. */
  method ReadRebuilt(k: Kernel, ghost input: BuildInput, ghost seen: seq<Atom>, full: Tree, rebuilt: Tree,
                     ids: seq<Digest>, request: Request)
    returns (a: Result<seq<Item>, SearchError>, b: Result<seq<Item>, SearchError>)
    requires k.Valid() && Buildable(k, input) && Sees(request, input.atoms, seen)
    requires IsBuilt(k, input, full) && IsBuilt(k, input.(atoms := seen), rebuilt)
    ensures a == b
    ensures a == if Granted(request) then Success(FlatRead(input.atoms, ids, request)) else Failure(ProjectNotGranted)
  {
    ghost var narrow := input.(atoms := seen);
    SeenBuildable(k, input, request, seen);
    WarmedHoldsAtoms(k, input, full);
    WarmedHoldsAtoms(k, narrow, rebuilt);
    SameView(k, input, seen, full, rebuilt, request);
    ReadForgetsOrder(Concat(Groups(k, input, full)), input.atoms, ids, request);
    a := ReadSegments(k, Warmed(full), ids, request, Groups(k, input, full));
    b := ReadSegments(k, Warmed(rebuilt), ids, request, Groups(k, narrow, rebuilt));
  }

  /** And the record list, row by row, even where two records claim one position. */
  method RecordsRebuilt(k: Kernel, ghost input: BuildInput, ghost seen: seq<Atom>, full: Tree, rebuilt: Tree, request: Request)
    returns (a: Result<seq<RecordRow>, SearchError>, b: Result<seq<RecordRow>, SearchError>)
    requires k.Valid() && Buildable(k, input) && Sees(request, input.atoms, seen)
    requires IsBuilt(k, input, full) && IsBuilt(k, input.(atoms := seen), rebuilt)
    ensures a == b
    ensures if Granted(request) then RecordAnswer(a, Filter(VisibleTo(request), input.atoms)) else a == Failure(ProjectNotGranted)
  {
    ghost var narrow := input.(atoms := seen);
    SeenBuildable(k, input, request, seen);
    WarmedHoldsAtoms(k, input, full);
    WarmedHoldsAtoms(k, narrow, rebuilt);
    SameView(k, input, seen, full, rebuilt, request);
    a := ListRecords(k, Warmed(full), request, Groups(k, input, full));
    b := ListRecords(k, Warmed(rebuilt), request, Groups(k, narrow, rebuilt));
    if Granted(request) {
      FilterPermutes(VisibleTo(request), Concat(Groups(k, input, full)), input.atoms);
      RecordsForgetOrder(a, Filter(VisibleTo(request), Concat(Groups(k, input, full))), Filter(VisibleTo(request), input.atoms));
    }
  }
}
