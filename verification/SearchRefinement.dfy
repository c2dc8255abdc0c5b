/** Scoring segment by segment is scoring all the visible atoms one by one, by statistics over just those. */
module SearchRefinement {
  import opened Sequences
  import opened SearchModel
  import opened SearchFlat
  import opened SearchIndex

  /** The segment holds exactly these atoms: their facts in order, their postings in any order. */
  ghost predicate Holding(k: Kernel, segment: SegmentRows, atoms: seq<Atom>) {
    && segment.facts == Map(FactOfAtom(k), atoms)
    && multiset(segment.postings) == multiset(FlatMap(PostingsOfAtom(k), atoms))
    && (forall a :: a in atoms ==> a.at.atomId in segment.content && segment.content[a.at.atomId] == ContentOf(k, a))
    && segment.statistics == StatisticsOf(segment.postings, |atoms|)
    && segment.lengths == LengthsOf(segment.postings)
    && (forall a :: a in atoms ==> TupleOf(a) == segment.manifest.tuple)
  }

  /** The segments hold the groups, one each. */
  ghost predicate Indexes(k: Kernel, segments: seq<SegmentRows>, groups: seq<seq<Atom>>) {
    |segments| == |groups| && forall i :: 0 <= i < |groups| ==> Holding(k, segments[i], groups[i])
  }

  function Concat<T>(groups: seq<seq<T>>): seq<T> { if groups == [] then [] else groups[0] + Concat(groups[1..]) }

  lemma {:induction false} ConcatDistinct(groups: seq<seq<Atom>>, i: nat)
    requires i < |groups| && DistinctAtoms(Concat(groups))
    ensures DistinctAtoms(groups[i])
    ensures forall a :: a in groups[i] ==> a in Concat(groups)
  {
    DistinctHead(groups);
    if i > 0 {
      assert groups[i] == groups[1..][i - 1];
      ConcatDistinct(groups[1..], i - 1);
    }
  }

  lemma DistinctHead(groups: seq<seq<Atom>>)
    requires groups != [] && DistinctAtoms(Concat(groups))
    ensures DistinctAtoms(groups[0]) && DistinctAtoms(Concat(groups[1..]))
  {
    MapConcat(IdOf(), groups[0], Concat(groups[1..]));
    DistinctParts(Map(IdOf(), groups[0]), Map(IdOf(), Concat(groups[1..])));
  }

  // ---------------------------------------------------------------- one atom in the postings

  /** `f` on the atom with this identity, zero elsewhere. */
  function Only(f: Atom -> int, id: Digest): Atom -> int { (a: Atom) => if a.at.atomId == id then f(a) else 0 }

  lemma {:induction false} SumOnly(f: Atom -> int, atoms: seq<Atom>, a: Atom)
    requires DistinctAtoms(atoms) && a in atoms
    ensures Sum(Only(f, a.at.atomId), atoms) == f(a)
  {
    var rest := atoms[1..];
    assert atoms == [atoms[0]] + rest;
    DistinctTail(atoms);
    if atoms[0] == a {
      forall x | x in rest ensures Only(f, a.at.atomId)(x) == 0 { HeadIdIsNew(atoms, x); }
      SumAbsent(Only(f, a.at.atomId), rest);
    } else {
      HeadIdIsNew(atoms, a);
      SumOnly(f, rest, a);
    }
  }

  lemma DistinctTail(atoms: seq<Atom>)
    requires atoms != [] && DistinctAtoms(atoms)
    ensures DistinctAtoms(atoms[1..])
  {
    var ids := Map(IdOf(), atoms);
    forall i, j | 0 <= i < j < |atoms| - 1 ensures Map(IdOf(), atoms[1..])[i] != Map(IdOf(), atoms[1..])[j] {
      assert ids[i + 1] != ids[j + 1];
    }
  }

  lemma HeadIdIsNew(atoms: seq<Atom>, x: Atom)
    requires atoms != [] && DistinctAtoms(atoms) && x in atoms[1..]
    ensures x.at.atomId != atoms[0].at.atomId
  {
    var j :| 0 <= j < |atoms[1..]| && atoms[1..][j] == x;
    assert Map(IdOf(), atoms)[0] != Map(IdOf(), atoms)[j + 1];
  }

  function OccurrencesIn(k: Kernel, t: Term): Atom -> int { (a: Atom) => Occurrences(k, a, t) }

  /** Summing over the postings an atom makes is summing over its counts. */
  lemma {:induction false} SumPostings(f: PostingRow -> int, g: Count -> int, id: Digest, counts: seq<Count>)
    requires forall c :: f(Posting(id)(c)) == g(c)
    ensures Sum(f, Map(Posting(id), counts)) == Sum(g, counts)
  {
    if counts != [] {
      assert Map(Posting(id), counts)[1..] == Map(Posting(id), counts[1..]);
      SumPostings(f, g, id, counts[1..]);
    }
  }

  function Zero(): Count -> int { (c: Count) => 0 }

  lemma SumZero(counts: seq<Count>)
    ensures Sum(Zero(), counts) == 0
  {
  }

  /** The sum of `f` over a segment's postings, taken atom by atom. */
  lemma SumByAtom(k: Kernel, segment: SegmentRows, atoms: seq<Atom>, f: PostingRow -> int, h: Atom -> int)
    requires Holding(k, segment, atoms)
    requires forall a :: h(a) == Sum(f, PostingsOf(k, a))
    ensures Sum(f, segment.postings) == Sum(h, atoms)
  {
    SumPermutes(f, segment.postings, FlatMap(PostingsOfAtom(k), atoms));
    SumFlatMap(f, PostingsOfAtom(k), h, atoms);
  }

  lemma PairSum(k: Kernel, segment: SegmentRows, atoms: seq<Atom>, a: Atom, t: Term)
    requires Holding(k, segment, atoms) && DistinctAtoms(atoms) && a in atoms
    ensures Sum(CountOfPair(a.at.atomId, t), segment.postings) == Occurrences(k, a, t)
  {
    var id := a.at.atomId;
    forall x ensures Only(OccurrencesIn(k, t), id)(x) == Sum(CountOfPair(id, t), PostingsOf(k, x)) {
      if x.at.atomId == id {
        SumPostings(CountOfPair(id, t), CountOfTerm(t), x.at.atomId, CountsOf(k, x));
      } else {
        SumPostings(CountOfPair(id, t), Zero(), x.at.atomId, CountsOf(k, x));
        SumZero(CountsOf(k, x));
      }
    }
    SumByAtom(k, segment, atoms, CountOfPair(id, t), Only(OccurrencesIn(k, t), id));
    SumOnly(OccurrencesIn(k, t), atoms, a);
  }

  lemma LengthSum(k: Kernel, segment: SegmentRows, atoms: seq<Atom>, a: Atom)
    requires Holding(k, segment, atoms) && DistinctAtoms(atoms) && a in atoms
    ensures Sum(CountOfAtom(a.at.atomId), segment.postings) == LengthOf(k)(a)
  {
    var id := a.at.atomId;
    forall x ensures Only(LengthOf(k), id)(x) == Sum(CountOfAtom(id), PostingsOf(k, x)) {
      if x.at.atomId == id {
        SumPostings(CountOfAtom(id), AnyCount(), x.at.atomId, CountsOf(k, x));
      } else {
        SumPostings(CountOfAtom(id), Zero(), x.at.atomId, CountsOf(k, x));
        SumZero(CountsOf(k, x));
      }
    }
    SumByAtom(k, segment, atoms, CountOfAtom(id), Only(LengthOf(k), id));
    SumOnly(LengthOf(k), atoms, a);
  }

  lemma FrequenciesAgree(k: Kernel, segment: SegmentRows, atoms: seq<Atom>, a: Atom, terms: seq<Term>)
    requires Holding(k, segment, atoms) && DistinctAtoms(atoms) && a in atoms
    ensures FrequenciesIn(segment.postings, a.at.atomId, terms) == Frequencies(k, a, terms)
  {
    forall t ensures Sum(CountOfPair(a.at.atomId, t), segment.postings) == Occurrences(k, a, t) {
      PairSum(k, segment, atoms, a, t);
    }
  }

  /** An atom with a matched term has a length. */
  lemma LengthKnown(postings: seq<PostingRow>, id: Digest, terms: seq<Term>)
    requires FrequenciesIn(postings, id, terms) != map[]
    ensures id in LengthsOf(postings)
  {
    var t :| t in FrequenciesIn(postings, id, terms);
    if id !in LengthsOf(postings) {
      forall p | p in postings ensures CountOfPair(id, t)(p) == 0 { assert p.atomId in LengthsOf(postings); }
      SumAbsent(CountOfPair(id, t), postings);
      assert false;
    }
  }

  // ---------------------------------------------------------------- candidates

  function CandidateOf(k: Kernel): Scored -> Candidate {
    (s: Scored) => Candidate(FactOf(k, s.atom), ContentOf(k, s.atom), s.score)
  }

  function Matching(k: Kernel, terms: seq<Term>): Scored -> bool {
    (s: Scored) => Frequencies(k, s.atom, terms) != map[] && s.score > 0
  }

  function Matches(k: Kernel, terms: seq<Term>, statistics: Statistics, atoms: seq<Atom>): seq<Scored> {
    Filter(Matching(k, terms), Map(ScoreOf(k, terms, statistics), atoms))
  }

  lemma CandidateOfFact(k: Kernel, segment: SegmentRows, atoms: seq<Atom>, a: Atom, terms: seq<Term>, statistics: Statistics)
    requires Holding(k, segment, atoms) && DistinctAtoms(atoms) && a in atoms
    ensures CandidateAt(k, segment, terms, statistics)(FactOf(k, a))
      == Map(CandidateOf(k), Matches(k, terms, statistics, [a]))
  {
    FrequenciesAgree(k, segment, atoms, a, terms);
    var scored := ScoreOf(k, terms, statistics)(a);
    assert Map(ScoreOf(k, terms, statistics), [a]) == [scored];
    FilterOne(Matching(k, terms), scored);
    assert Matches(k, terms, statistics, [a]) == (if Matching(k, terms)(scored) then [scored] else []);
    if Frequencies(k, a, terms) != map[] {
      LengthKnown(segment.postings, a.at.atomId, terms);
      LengthSum(k, segment, atoms, a);
    }
  }

  lemma MatchesConcat(k: Kernel, terms: seq<Term>, statistics: Statistics, a: seq<Atom>, b: seq<Atom>)
    ensures Matches(k, terms, statistics, a + b) == Matches(k, terms, statistics, a) + Matches(k, terms, statistics, b)
  {
    var score := ScoreOf(k, terms, statistics);
    MapConcat(score, a, b);
    FilterConcat(Matching(k, terms), Map(score, a), Map(score, b));
  }

  lemma {:induction false} FactCandidates(k: Kernel, segment: SegmentRows, atoms: seq<Atom>, some: seq<Atom>, terms: seq<Term>, statistics: Statistics)
    requires Holding(k, segment, atoms) && DistinctAtoms(atoms) && forall a :: a in some ==> a in atoms
    ensures FlatMap(CandidateAt(k, segment, terms, statistics), Map(FactOfAtom(k), some))
      == Map(CandidateOf(k), Matches(k, terms, statistics, some))
  {
    if some != [] {
      var facts := Map(FactOfAtom(k), some);
      assert facts[1..] == Map(FactOfAtom(k), some[1..]);
      FactCandidates(k, segment, atoms, some[1..], terms, statistics);
      CandidateOfFact(k, segment, atoms, some[0], terms, statistics);
      CandidatesHead(k, some, terms, statistics);
    }
  }

  lemma CandidatesHead(k: Kernel, some: seq<Atom>, terms: seq<Term>, statistics: Statistics)
    requires some != []
    ensures Map(CandidateOf(k), Matches(k, terms, statistics, some))
         == Map(CandidateOf(k), Matches(k, terms, statistics, [some[0]])) + Map(CandidateOf(k), Matches(k, terms, statistics, some[1..]))
  {
    assert some == [some[0]] + some[1..];
    MatchesConcat(k, terms, statistics, [some[0]], some[1..]);
    MapConcat(CandidateOf(k), Matches(k, terms, statistics, [some[0]]), Matches(k, terms, statistics, some[1..]));
  }

  lemma {:induction false} AllCandidates(k: Kernel, segments: seq<SegmentRows>, groups: seq<seq<Atom>>, terms: seq<Term>, statistics: Statistics)
    requires Indexes(k, segments, groups) && DistinctAtoms(Concat(groups))
    ensures FlatMap(SegmentCandidates(k, terms, statistics), segments)
      == Map(CandidateOf(k), Matches(k, terms, statistics, Concat(groups)))
  {
    if groups != [] {
      DistinctHead(groups);
      AllCandidates(k, segments[1..], groups[1..], terms, statistics);
      FactCandidates(k, segments[0], groups[0], groups[0], terms, statistics);
      MatchesConcat(k, terms, statistics, groups[0], Concat(groups[1..]));
      MapConcat(CandidateOf(k), Matches(k, terms, statistics, groups[0]), Matches(k, terms, statistics, Concat(groups[1..])));
    }
  }

  // ---------------------------------------------------------------- statistics

  /** A term posts once for an atom that holds it. */
  lemma {:induction false} TermPostsOnce(counts: seq<Count>, id: Digest, t: Term)
    requires ProperCounts(counts)
    ensures Sum(TermIs(t), Map(Posting(id), counts)) == (if Sum(CountOfTerm(t), counts) > 0 then 1 else 0)
    ensures Sum(CountOfTerm(t), counts) >= 0
  {
    if counts != [] {
      var rest := counts[1..];
      assert Map(Posting(id), counts)[1..] == Map(Posting(id), rest);
      TermPostsOnce(rest, id, t);
      if counts[0].term == t {
        forall c | c in rest ensures CountOfTerm(t)(c) == 0 { var j :| 0 <= j < |rest| && rest[j] == c; assert counts[0].term != counts[j + 1].term; }
        SumAbsent(CountOfTerm(t), rest);
      }
    }
  }

  lemma SegmentFrequency(k: Kernel, segment: SegmentRows, atoms: seq<Atom>, t: Term)
    requires k.Valid() && Holding(k, segment, atoms)
    ensures FrequencyOf(t)(segment) == DocumentFrequency(k, atoms, t)
    ensures t in segment.statistics.frequency <==> DocumentFrequency(k, atoms, t) > 0
  {
    forall a ensures Holds(k, t)(a) == Sum(TermIs(t), PostingsOf(k, a)) {
      TermPostsOnce(CountsOf(k, a), a.at.atomId, t);
    }
    SumByAtom(k, segment, atoms, TermIs(t), Holds(k, t));
    if t in segment.statistics.frequency {
      var p :| p in segment.postings && p.term == t;
      assert TermIs(t)(p) > 0;
      SumPositive(TermIs(t), segment.postings);
    } else {
      forall p | p in segment.postings ensures TermIs(t)(p) == 0 { assert p.term in FrequencyTable(segment.postings); }
      SumAbsent(TermIs(t), segment.postings);
    }
  }

  lemma SegmentTotal(k: Kernel, segment: SegmentRows, atoms: seq<Atom>)
    requires Holding(k, segment, atoms)
    ensures segment.statistics.totalTermCount == Sum(LengthOf(k), atoms)
  {
    forall a ensures LengthOf(k)(a) == Sum(CountOfPosting(), PostingsOf(k, a)) {
      SumPostings(CountOfPosting(), AnyCount(), a.at.atomId, CountsOf(k, a));
    }
    SumByAtom(k, segment, atoms, CountOfPosting(), LengthOf(k));
  }

  lemma {:induction false} UnionTotals(k: Kernel, segments: seq<SegmentRows>, groups: seq<seq<Atom>>)
    requires Indexes(k, segments, groups)
    ensures Sum(Documents(), segments) == |Concat(groups)|
    ensures Sum(Terms(), segments) == Sum(LengthOf(k), Concat(groups))
  {
    if groups != [] {
      UnionTotals(k, segments[1..], groups[1..]);
      SegmentTotal(k, segments[0], groups[0]);
      SumConcat(LengthOf(k), groups[0], Concat(groups[1..]));
    }
  }

  lemma {:induction false} UnionFrequency(k: Kernel, segments: seq<SegmentRows>, groups: seq<seq<Atom>>, t: Term)
    requires k.Valid() && Indexes(k, segments, groups)
    ensures Sum(FrequencyOf(t), segments) == DocumentFrequency(k, Concat(groups), t)
    ensures Known(segments, t) <==> DocumentFrequency(k, Concat(groups), t) > 0
    ensures DocumentFrequency(k, Concat(groups), t) >= 0
  {
    if groups != [] {
      UnionFrequency(k, segments[1..], groups[1..], t);
      SegmentFrequency(k, segments[0], groups[0], t);
      SumConcat(Holds(k, t), groups[0], Concat(groups[1..]));
      SumPositive(Holds(k, t), groups[0]);
      KnownHead(segments, t);
    }
  }

  lemma KnownHead(segments: seq<SegmentRows>, t: Term)
    requires segments != []
    ensures Known(segments, t) <==> t in segments[0].statistics.frequency || Known(segments[1..], t)
  {
    if Known(segments, t) {
      var i :| 0 <= i < |segments| && t in segments[i].statistics.frequency;
      if i > 0 { assert segments[1..][i - 1] == segments[i]; }
    }
    if Known(segments[1..], t) {
      var i :| 0 <= i < |segments[1..]| && t in segments[1..][i].statistics.frequency;
      assert segments[i + 1] == segments[1..][i];
    }
  }

  /** Merging the statistics of the segments counts over exactly the atoms they hold. */
  lemma UnionIsFlat(k: Kernel, segments: seq<SegmentRows>, groups: seq<seq<Atom>>, terms: seq<Term>)
    requires k.Valid() && Indexes(k, segments, groups)
    ensures UnionOf(segments, terms) == FlatStatistics(k, Concat(groups), terms)
  {
    UnionTotals(k, segments, groups);
    forall t
      ensures Sum(FrequencyOf(t), segments) == DocumentFrequency(k, Concat(groups), t)
      ensures Known(segments, t) <==> DocumentFrequency(k, Concat(groups), t) > 0
    {
      UnionFrequency(k, segments, groups, t);
    }
  }
}
