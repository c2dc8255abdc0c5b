/** Reading through the index, against reading all atoms. */
module SearchScope {
  import opened Wrappers
  import opened Sequences
  import opened Sorting
  import opened SearchModel
  import opened SearchFlat
  import opened SearchIndex
  import opened SearchRefinement

  function AtomInScope(request: Request): Atom -> bool {
    (a: Atom) => InScope(request, OrEmpty(a.association), a.at.record)
  }

  /** The atoms left in each admitted segment. */
  function ScopedGroups(request: Request, segments: seq<SegmentRows>, groups: seq<seq<Atom>>): seq<seq<Atom>>
    requires |segments| == |groups|
  {
    if groups == [] then []
    else HeadGroup(request, segments[0], groups[0]) + ScopedGroups(request, segments[1..], groups[1..])
  }

  /** Distinct identities: a posting survives exactly when its atom does. */
  lemma PostingKept(k: Kernel, atoms: seq<Atom>, request: Request, a: Atom, p: PostingRow)
    requires DistinctAtoms(atoms) && a in atoms && p.atomId == a.at.atomId
    ensures PostingOf(Map(FactOfAtom(k), Filter(AtomInScope(request), atoms)))(p) == AtomInScope(request)(a)
  {
    var kept := Filter(AtomInScope(request), atoms);
    FilterMembers(AtomInScope(request), atoms);
    FactIds(k, kept, p.atomId);
    if HasAtom(kept, p.atomId) {
      var b :| b in kept && b.at.atomId == p.atomId;
      SameId(atoms, b, a);
    }
  }

  ghost predicate HasAtom(atoms: seq<Atom>, id: Digest) { exists a :: a in atoms && a.at.atomId == id }

  lemma {:induction false} FactIds(k: Kernel, atoms: seq<Atom>, id: Digest)
    ensures (exists f :: f in Map(FactOfAtom(k), atoms) && f.at.atomId == id) <==> HasAtom(atoms, id)
  {
    var facts := Map(FactOfAtom(k), atoms);
    if HasAtom(atoms, id) {
      var i :| 0 <= i < |atoms| && atoms[i].at.atomId == id;
      assert facts[i] in facts;
    }
    if f :| f in facts && f.at.atomId == id {
      var i :| 0 <= i < |facts| && facts[i] == f;
      assert atoms[i] in atoms;
    }
  }

  lemma NarrowHolds(k: Kernel, segment: SegmentRows, atoms: seq<Atom>, request: Request)
    requires Holding(k, segment, atoms) && DistinctAtoms(atoms)
    ensures Holding(k, Narrow(request)(segment), Filter(AtomInScope(request), atoms))
  {
    var kept := Filter(AtomInScope(request), atoms);
    FilterMap(FactInScope(request), AtomInScope(request), FactOfAtom(k), atoms);
    var facts := Map(FactOfAtom(k), kept);
    NarrowPostings(k, segment, atoms, request);
    FilterMembers(AtomInScope(request), atoms);
    assert Narrow(request)(segment).postings == Filter(PostingOf(facts), segment.postings);
  }

  lemma NarrowPostings(k: Kernel, segment: SegmentRows, atoms: seq<Atom>, request: Request)
    requires Holding(k, segment, atoms) && DistinctAtoms(atoms)
    ensures
      var kept := Filter(AtomInScope(request), atoms);
      multiset(Filter(PostingOf(Map(FactOfAtom(k), kept)), segment.postings)) == multiset(FlatMap(PostingsOfAtom(k), kept))
  {
    var keep := PostingOf(Map(FactOfAtom(k), Filter(AtomInScope(request), atoms)));
    forall a, p | a in atoms && p in PostingsOfAtom(k)(a) ensures keep(p) == AtomInScope(request)(a) {
      PostingKept(k, atoms, request, a, p);
    }
    FilterFlatMap(keep, AtomInScope(request), PostingsOfAtom(k), atoms);
    FilterPermutes(keep, segment.postings, FlatMap(PostingsOfAtom(k), atoms));
  }

  lemma SameId(atoms: seq<Atom>, a: Atom, b: Atom)
    requires DistinctAtoms(atoms) && a in atoms && b in atoms && a.at.atomId == b.at.atomId
    ensures a == b
  {
    var i :| 0 <= i < |atoms| && atoms[i] == a;
    var j :| 0 <= j < |atoms| && atoms[j] == b;
    DistinctAt(Map(IdOf(), atoms), i, j);
  }

  /** The groups an admitted or refused first segment contributes. */
  function HeadGroup(request: Request, segment: SegmentRows, group: seq<Atom>): seq<seq<Atom>> {
    if AdmittedSegment(request.reader, segment) then [Filter(AtomInScope(request), group)] else []
  }

  lemma HeadIsVisible(k: Kernel, segment: SegmentRows, group: seq<Atom>, request: Request)
    requires Holding(k, segment, group)
    ensures Concat(HeadGroup(request, segment, group)) == Filter(VisibleTo(request), group)
  {
    if AdmittedSegment(request.reader, segment) {
      FilterSame(VisibleTo(request), AtomInScope(request), group);
      assert [Filter(AtomInScope(request), group)][1..] == [];
    } else {
      FilterNone(VisibleTo(request), group);
    }
  }

  lemma {:induction false} ConcatConcat<T>(a: seq<seq<T>>, b: seq<seq<T>>)
    ensures Concat(a + b) == Concat(a) + Concat(b)
  {
    if a == [] {
      assert a + b == b;
    } else {
      assert (a + b)[1..] == a[1..] + b;
      ConcatConcat(a[1..], b);
    }
  }

  /** What the segments hold after scoping is what the reader may see of all the atoms. */
  lemma {:induction false} ScopedIsVisible(k: Kernel, segments: seq<SegmentRows>, groups: seq<seq<Atom>>, request: Request)
    requires Indexes(k, segments, groups)
    ensures Concat(ScopedGroups(request, segments, groups)) == Filter(VisibleTo(request), Concat(groups))
  {
    if groups != [] {
      ScopedIsVisible(k, segments[1..], groups[1..], request);
      FilterConcat(VisibleTo(request), groups[0], Concat(groups[1..]));
      HeadIsVisible(k, segments[0], groups[0], request);
      ConcatConcat(HeadGroup(request, segments[0], groups[0]), ScopedGroups(request, segments[1..], groups[1..]));
    }
  }

  lemma IndexesConcat(k: Kernel, a: seq<SegmentRows>, b: seq<SegmentRows>, ga: seq<seq<Atom>>, gb: seq<seq<Atom>>)
    requires Indexes(k, a, ga) && Indexes(k, b, gb)
    ensures Indexes(k, a + b, ga + gb)
  {
    forall i | 0 <= i < |ga + gb| ensures Holding(k, (a + b)[i], (ga + gb)[i]) { HoldingAt(k, a, b, ga, gb, i); }
  }

  lemma HoldingAt(k: Kernel, a: seq<SegmentRows>, b: seq<SegmentRows>, ga: seq<seq<Atom>>, gb: seq<seq<Atom>>, i: nat)
    requires Indexes(k, a, ga) && Indexes(k, b, gb) && i < |ga + gb|
    ensures Holding(k, (a + b)[i], (ga + gb)[i])
  {
    if i < |ga| {
      SameHolding(k, a[i], ga[i], (a + b)[i], (ga + gb)[i]);
    } else {
      SameHolding(k, b[i - |ga|], gb[i - |ga|], (a + b)[i], (ga + gb)[i]);
    }
  }

  lemma SameHolding(k: Kernel, s: SegmentRows, g: seq<Atom>, t: SegmentRows, h: seq<Atom>)
    requires Holding(k, s, g) && s == t && g == h
    ensures Holding(k, t, h)
  {
  }

  lemma AdmittedHead(k: Kernel, segment: SegmentRows, group: seq<Atom>, request: Request)
    requires Holding(k, segment, group) && request.project.None? && request.records.None?
    ensures Indexes(k, if AdmittedSegment(request.reader, segment) then [segment] else [], HeadGroup(request, segment, group))
  {
    FilterAll(AtomInScope(request), group);
  }

  lemma {:induction false} AdmittedIndexes(k: Kernel, segments: seq<SegmentRows>, groups: seq<seq<Atom>>, request: Request)
    requires Indexes(k, segments, groups)
    requires request.project.None? && request.records.None?
    ensures Indexes(k, Filter(AdmittedTo(request.reader), segments), ScopedGroups(request, segments, groups))
  {
    if groups != [] {
      AdmittedIndexes(k, segments[1..], groups[1..], request);
      AdmittedHead(k, segments[0], groups[0], request);
      var head := if AdmittedSegment(request.reader, segments[0]) then [segments[0]] else [];
      IndexesConcat(k, head, Filter(AdmittedTo(request.reader), segments[1..]),
                    HeadGroup(request, segments[0], groups[0]), ScopedGroups(request, segments[1..], groups[1..]));
    }
  }

  lemma NarrowedHead(k: Kernel, segment: SegmentRows, group: seq<Atom>, request: Request)
    requires Holding(k, segment, group) && DistinctAtoms(group)
    ensures Indexes(k, Map(Narrow(request), if AdmittedSegment(request.reader, segment) then [segment] else []), HeadGroup(request, segment, group))
  {
    NarrowHolds(k, segment, group, request);
  }

  lemma {:induction false} NarrowedIndexes(k: Kernel, segments: seq<SegmentRows>, groups: seq<seq<Atom>>, request: Request)
    requires Indexes(k, segments, groups) && DistinctAtoms(Concat(groups))
    ensures Indexes(k, Map(Narrow(request), Filter(AdmittedTo(request.reader), segments)), ScopedGroups(request, segments, groups))
  {
    if groups != [] {
      DistinctHead(groups);
      NarrowedIndexes(k, segments[1..], groups[1..], request);
      NarrowedHead(k, segments[0], groups[0], request);
      var head := if AdmittedSegment(request.reader, segments[0]) then [segments[0]] else [];
      var rest := Filter(AdmittedTo(request.reader), segments[1..]);
      MapConcat(Narrow(request), head, rest);
      IndexesConcat(k, Map(Narrow(request), head), Map(Narrow(request), rest),
                    HeadGroup(request, segments[0], groups[0]), ScopedGroups(request, segments[1..], groups[1..]));
    }
  }

  lemma ScopeHolds(k: Kernel, segments: seq<SegmentRows>, groups: seq<seq<Atom>>, request: Request)
    requires Indexes(k, segments, groups) && DistinctAtoms(Concat(groups))
    requires ScopedSegments(segments, request).Success?
    ensures Indexes(k, ScopedSegments(segments, request).value, ScopedGroups(request, segments, groups))
    ensures Concat(ScopedGroups(request, segments, groups)) == Filter(VisibleTo(request), Concat(groups))
    ensures DistinctAtoms(Concat(ScopedGroups(request, segments, groups)))
  {
    if request.project.None? && request.records.None? {
      AdmittedIndexes(k, segments, groups, request);
    } else {
      NarrowedIndexes(k, segments, groups, request);
    }
    ScopedIsVisible(k, segments, groups, request);
    FilterDistinct(VisibleTo(request), IdOf(), Concat(groups));
  }

  // ---------------------------------------------------------------- postings of a valid analysis

  lemma {:induction false} AtomPairsDistinct(counts: seq<Count>, id: Digest)
    requires ProperCounts(counts)
    ensures ProperPostings(Map(Posting(id), counts))
  {
    var postings := Map(Posting(id), counts);
    var pairs := Map(PairOf(), postings);
    forall i, j | 0 <= i < j < |pairs| ensures pairs[i] != pairs[j] {
      assert postings[i] == Posting(id)(counts[i]) && postings[j] == Posting(id)(counts[j]);
    }
  }

  lemma {:induction false} PostingsProper(k: Kernel, atoms: seq<Atom>)
    requires k.Valid() && DistinctAtoms(atoms)
    ensures ProperPostings(FlatMap(PostingsOfAtom(k), atoms))
  {
    if atoms != [] {
      var a, rest := atoms[0], atoms[1..];
      var head, tail := PostingsOf(k, a), FlatMap(PostingsOfAtom(k), rest);
      DistinctTail(atoms);
      PostingsProper(k, rest);
      AtomPairsDistinct(CountsOf(k, a), a.at.atomId);
      MapConcat(PairOf(), head, tail);
      forall pair | pair in Map(PairOf(), head) ensures pair !in Map(PairOf(), tail) { PairIsNew(k, atoms, pair); }
      DistinctConcat(Map(PairOf(), head), Map(PairOf(), tail));
    }
  }

  /** A posting of the first atom shares its term and atom with no later posting. */
  lemma PairIsNew(k: Kernel, atoms: seq<Atom>, pair: (Term, Digest))
    requires atoms != [] && DistinctAtoms(atoms)
    requires pair in Map(PairOf(), PostingsOf(k, atoms[0]))
    ensures pair !in Map(PairOf(), FlatMap(PostingsOfAtom(k), atoms[1..]))
  {
    var tail := FlatMap(PostingsOfAtom(k), atoms[1..]);
    assert pair.1 == atoms[0].at.atomId;
    forall j | 0 <= j < |tail| ensures Map(PairOf(), tail)[j] != pair {
      FlatMapMembers(PostingsOfAtom(k), atoms[1..], tail[j]);
      assert tail[j] in tail;
      var b :| b in atoms[1..] && tail[j] in PostingsOf(k, b);
      HeadIdIsNew(atoms, b);
    }
  }

  lemma ProperPermutes(a: seq<PostingRow>, b: seq<PostingRow>)
    requires multiset(a) == multiset(b) && ProperPostings(a)
    ensures ProperPostings(b)
  {
    MapPermutes(PairOf(), a, b);
    DistinctPermutes(Map(PairOf(), a), Map(PairOf(), b));
    forall i | 0 <= i < |b| ensures b[i].count > 0 {
      assert b[i] in multiset(a);
      assert b[i] in a;
    }
  }

  lemma HeldPostingsProper(k: Kernel, segments: seq<SegmentRows>, groups: seq<seq<Atom>>)
    requires k.Valid() && Indexes(k, segments, groups) && DistinctAtoms(Concat(groups))
    ensures forall s :: s in segments ==> ProperPostings(s.postings)
  {
    forall i | 0 <= i < |segments| ensures ProperPostings(segments[i].postings) {
      ConcatDistinct(groups, i);
      PostingsProper(k, groups[i]);
      ProperPermutes(FlatMap(PostingsOfAtom(k), groups[i]), segments[i].postings);
    }
  }

  // ---------------------------------------------------------------- search

  predicate Granted(request: Request) {
    request.project.Some? ==> request.project.value in Grants(request.reader)
  }

  lemma ScopeRefused(segments: seq<SegmentRows>, request: Request)
    ensures ScopedSegments(segments, request).Failure? <==> !Granted(request)
    ensures !Granted(request) ==> ScopedSegments(segments, request).error == ProjectNotGranted
  {
  }

  function WantedScored(request: Request): Scored -> bool {
    (s: Scored) => Wanted(request, s.atom.at.kind, s.atom.at.record, s.atom.at.order, s.atom.policy)
  }

  lemma WantedMatches(k: Kernel, terms: seq<Term>, request: Request, scored: seq<Scored>)
    ensures Filter(WantedCandidate(request), Map(CandidateOf(k), Filter(Matching(k, terms), scored)))
      == Map(CandidateOf(k), Filter(Relevant(k, terms, request), scored))
  {
    var matches := Filter(Matching(k, terms), scored);
    FilterMap(WantedCandidate(request), WantedScored(request), CandidateOf(k), matches);
    FilterFilter(Matching(k, terms), WantedScored(request), Relevant(k, terms, request), scored);
  }

  lemma SameKeys(k: Kernel)
    ensures forall x :: CandidateKey()(CandidateOf(k)(x)) == ScoredKey()(x)
  {
  }

  lemma RankScored(k: Kernel, terms: seq<Term>, request: Request, scored: seq<Scored>)
    ensures Sort(CandidateKey(), Filter(WantedCandidate(request), Map(CandidateOf(k), Filter(Matching(k, terms), scored))))
      == Map(CandidateOf(k), Sort(ScoredKey(), Filter(Relevant(k, terms, request), scored)))
  {
    WantedMatches(k, terms, request, scored);
    SameKeys(k);
    SortMap(ScoredKey(), CandidateKey(), CandidateOf(k), Filter(Relevant(k, terms, request), scored));
  }

  lemma CandidatesRank(k: Kernel, visible: seq<Atom>, terms: seq<Term>, request: Request)
    ensures
      Sort(CandidateKey(), Filter(WantedCandidate(request),
                                  Map(CandidateOf(k), Matches(k, terms, FlatStatistics(k, visible, terms), visible))))
      == Map(CandidateOf(k), FlatRanking(k, visible, terms, request))
  {
    RankScored(k, terms, request, Map(ScoreOf(k, terms, FlatStatistics(k, visible, terms)), visible));
  }

  lemma TakeMap<T, U>(f: T -> U, s: seq<T>, n: nat)
    ensures Map(f, Take(s, n)) == Take(Map(f, s), n)
  {
  }

  /** Searching segment by segment finds what looking at every atom finds, in the same order. */
  method SearchSegments(k: Kernel, segments: seq<SegmentRows>, terms: seq<Term>, request: Request, limit: nat, ghost groups: seq<seq<Atom>>)
    returns (r: Result<Found, SearchError>)
    requires k.Valid() && Distinct(terms)
    requires Indexes(k, segments, groups) && DistinctAtoms(Concat(groups))
    ensures r == if Granted(request) then Success(FlatSearch(k, Concat(groups), terms, request, limit)) else Failure(ProjectNotGranted)
  {
    ScopeRefused(segments, request);
    var scoped := ScopedSegments(segments, request);
    if scoped.Failure? { return Failure(scoped.error); }
    var admitted := scoped.value;
    ghost var visible := Filter(VisibleTo(request), Concat(groups));
    ghost var left := ScopedGroups(request, segments, groups);
    ScopeHolds(k, segments, groups, request);
    HeldPostingsProper(k, admitted, left);
    var candidates := ScoreAdmittedCandidates(k, admitted, terms);
    UnionIsFlat(k, admitted, left, terms);
    AllCandidates(k, admitted, left, terms, FlatStatistics(k, visible, terms));
    CandidatesRank(k, visible, terms, request);
    var sorted := Sort(CandidateKey(), Filter(WantedCandidate(request), candidates));
    ghost var ranking := FlatRanking(k, visible, terms, request);
    MapMap(CandidateOf(k), CandidateItem(), ScoredItem(), ranking);
    TakeMap(CandidateItem(), sorted, limit);
    return Success(Found(Map(CandidateItem(), Take(sorted, limit)), |sorted| > limit));
  }

  // ---------------------------------------------------------------- as if rebuilt

  /**
   * A reader's search of all atoms answers as a search of nothing but the atoms
   * that reader and scope can see: no count comes from an unseen atom.
   */
  lemma AsIfRebuilt(k: Kernel, atoms: seq<Atom>, seen: seq<Atom>, terms: seq<Term>, request: Request, limit: nat)
    requires DistinctAtoms(atoms)
    requires multiset(seen) == multiset(Filter(VisibleTo(request), atoms))
    ensures FlatSearch(k, atoms, terms, request, limit) == FlatSearch(k, seen, terms, request, limit)
  {
    var visible := Filter(VisibleTo(request), atoms);
    FilterTwice(VisibleTo(request), atoms);
    FilterPermutes(VisibleTo(request), seen, visible);
    FilterDistinct(VisibleTo(request), IdOf(), atoms);
    FlatSearchSeesOnlyVisible(k, atoms, seen, terms, request, limit);
  }
}
