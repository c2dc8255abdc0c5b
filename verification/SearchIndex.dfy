/** Segments of rows, and the loops that merge and score them. */
module SearchIndex {
  import opened Wrappers
  import opened Sequences
  import opened Sorting
  import opened SearchModel

  datatype SegmentRows = SegmentRows(
    manifest: SegmentManifest,
    facts: seq<FactRow>,
    content: map<Digest, ContentRow>,
    postings: seq<PostingRow>,
    statistics: Statistics,
    lengths: map<Digest, int>)

  // ---------------------------------------------------------------- segment statistics

  function TermIs(t: Term): PostingRow -> int { (p: PostingRow) => if p.term == t then 1 else 0 }
  function CountOfAtom(id: Digest): PostingRow -> int { (p: PostingRow) => if p.atomId == id then p.count else 0 }
  function CountOfPair(id: Digest, t: Term): PostingRow -> int {
    (p: PostingRow) => if p.atomId == id && p.term == t then p.count else 0
  }
  function CountOfPosting(): PostingRow -> int { (p: PostingRow) => p.count }

  /** Counted from scratch over the postings. */
  function StatisticsOf(postings: seq<PostingRow>, documentCount: int): Statistics {
    Statistics(documentCount, Sum(CountOfPosting(), postings), FrequencyTable(postings))
  }

  function FrequencyTable(postings: seq<PostingRow>): map<Term, int> {
    map t | t in (set p | p in postings :: p.term) :: Sum(TermIs(t), postings)
  }

  function LengthsOf(postings: seq<PostingRow>): map<Digest, int> {
    map id | id in (set p | p in postings :: p.atomId) :: Sum(CountOfAtom(id), postings)
  }

  lemma SumStep<T>(f: T -> int, s: seq<T>, i: nat)
    requires i < |s|
    ensures Sum(f, s[..i + 1]) == Sum(f, s[..i]) + f(s[i])
  {
    assert s[..i + 1] == s[..i] + [s[i]];
    SumConcat(f, s[..i], [s[i]]);
    assert Sum(f, [s[i]]) == f(s[i]) + Sum(f, [s[i]][1..]);
  }

  lemma SumAbsent<T>(f: T -> int, s: seq<T>)
    requires forall x :: x in s ==> f(x) == 0
    ensures Sum(f, s) == 0
  {
  }

  lemma SumPositive<T>(f: T -> int, s: seq<T>)
    requires forall x :: x in s ==> f(x) >= 0
    ensures Sum(f, s) >= 0
    ensures (exists x :: x in s && f(x) > 0) ==> Sum(f, s) > 0
  {
  }

  function Bump<K>(m: map<K, int>, k: K, amount: int): map<K, int> { m[k := (if k in m then m[k] else 0) + amount] }

  lemma TermCountStep(postings: seq<PostingRow>, i: nat, t: Term)
    requires i < |postings|
    ensures Sum(TermIs(t), postings[..i + 1]) == Sum(TermIs(t), postings[..i]) + TermIs(t)(postings[i])
    ensures t in FrequencyTable(postings[..i + 1]) <==> t in FrequencyTable(postings[..i]) || t == postings[i].term
    ensures t !in FrequencyTable(postings[..i]) ==> Sum(TermIs(t), postings[..i]) == 0
  {
    SumStep(TermIs(t), postings, i);
    assert postings[..i + 1] == postings[..i] + [postings[i]];
    if t !in FrequencyTable(postings[..i]) { SumAbsent(TermIs(t), postings[..i]); }
  }

  lemma FrequencyStep(postings: seq<PostingRow>, i: nat)
    requires i < |postings|
    ensures FrequencyTable(postings[..i + 1]) == Bump(FrequencyTable(postings[..i]), postings[i].term, 1)
  {
    var before, next := FrequencyTable(postings[..i]), FrequencyTable(postings[..i + 1]);
    var bumped := Bump(before, postings[i].term, 1);
    forall t ensures t in next <==> t in bumped { TermCountStep(postings, i, t); }
    forall t | t in next ensures next[t] == bumped[t] { TermCountStep(postings, i, t); }
  }

  lemma AtomCountStep(postings: seq<PostingRow>, i: nat, id: Digest)
    requires i < |postings|
    ensures Sum(CountOfAtom(id), postings[..i + 1]) == Sum(CountOfAtom(id), postings[..i]) + CountOfAtom(id)(postings[i])
    ensures id in LengthsOf(postings[..i + 1]) <==> id in LengthsOf(postings[..i]) || id == postings[i].atomId
    ensures id !in LengthsOf(postings[..i]) ==> Sum(CountOfAtom(id), postings[..i]) == 0
  {
    SumStep(CountOfAtom(id), postings, i);
    PrefixGrows(postings, i);
    if id !in LengthsOf(postings[..i]) { SumAbsent(CountOfAtom(id), postings[..i]); }
  }

  lemma LengthsStep(postings: seq<PostingRow>, i: nat)
    requires i < |postings|
    ensures LengthsOf(postings[..i + 1]) == Bump(LengthsOf(postings[..i]), postings[i].atomId, postings[i].count)
  {
    var before, next := LengthsOf(postings[..i]), LengthsOf(postings[..i + 1]);
    var bumped := Bump(before, postings[i].atomId, postings[i].count);
    forall id ensures id in next <==> id in bumped { AtomCountStep(postings, i, id); }
    forall id | id in next ensures next[id] == bumped[id] { AtomCountStep(postings, i, id); }
  }

  method SegmentStatistics(postings: seq<PostingRow>, documentCount: int)
    returns (statistics: Statistics, lengths: map<Digest, int>)
    ensures statistics == StatisticsOf(postings, documentCount)
    ensures lengths == LengthsOf(postings)
  {
    var frequency: map<Term, int> := map[];
    lengths := map[];
    var total := 0;
    for i := 0 to |postings|
      invariant total == Sum(CountOfPosting(), postings[..i])
      invariant frequency == FrequencyTable(postings[..i])
      invariant lengths == LengthsOf(postings[..i])
    {
      var p := postings[i];
      SumStep(CountOfPosting(), postings, i);
      FrequencyStep(postings, i);
      LengthsStep(postings, i);
      frequency := Bump(frequency, p.term, 1);
      lengths := Bump(lengths, p.atomId, p.count);
      total := total + p.count;
    }
    assert postings[..|postings|] == postings;
    statistics := Statistics(documentCount, total, frequency);
  }

  // ---------------------------------------------------------------- union statistics

  function Documents(): SegmentRows -> int { (s: SegmentRows) => s.statistics.documentCount }
  function Terms(): SegmentRows -> int { (s: SegmentRows) => s.statistics.totalTermCount }
  function FrequencyOf(t: Term): SegmentRows -> int {
    (s: SegmentRows) => if t in s.statistics.frequency then s.statistics.frequency[t] else 0
  }

  predicate Known(segments: seq<SegmentRows>, t: Term) {
    exists i | 0 <= i < |segments| :: t in segments[i].statistics.frequency
  }

  function UnionOf(segments: seq<SegmentRows>, terms: seq<Term>): Statistics {
    Statistics(Sum(Documents(), segments), Sum(Terms(), segments), UnionFrequencies(segments, terms))
  }

  lemma KnownStep(segments: seq<SegmentRows>, i: nat, t: Term)
    requires i < |segments|
    ensures Known(segments[..i + 1], t) <==> Known(segments[..i], t) || t in segments[i].statistics.frequency
    ensures !Known(segments[..i], t) ==> Sum(FrequencyOf(t), segments[..i]) == 0
  {
    if t in segments[i].statistics.frequency { assert segments[..i + 1][i] == segments[i]; }
    if Known(segments[..i], t) {
      var j :| 0 <= j < i && t in segments[..i][j].statistics.frequency;
      assert segments[..i + 1][j] == segments[..i][j];
    } else {
      SumAbsent(FrequencyOf(t), segments[..i]);
    }
  }

  /** Adds one segment's frequencies of the query terms. */
  method AddFrequencies(before: map<Term, int>, segment: SegmentRows, terms: seq<Term>) returns (after: map<Term, int>)
    requires Distinct(terms)
    ensures Added(before, segment, terms, after)
  {
    after := before;
    for j := 0 to |terms|
      invariant Added(before, segment, terms[..j], after)
    {
      var term := terms[j];
      assert terms[..j + 1] == terms[..j] + [term];
      assert term !in terms[..j];
      if term in segment.statistics.frequency {
        after := after[term := (if term in after then after[term] else 0) + segment.statistics.frequency[term]];
      }
    }
    assert terms[..|terms|] == terms;
  }

  function UnionFrequencies(segments: seq<SegmentRows>, terms: seq<Term>): map<Term, int> {
    map t | t in terms && Known(segments, t) :: Sum(FrequencyOf(t), segments)
  }

  ghost predicate Added(before: map<Term, int>, segment: SegmentRows, terms: seq<Term>, after: map<Term, int>) {
    && (forall t :: t in after <==> t in before || (t in terms && t in segment.statistics.frequency))
    && (forall t :: t in after ==>
      after[t] == (if t in before then before[t] else 0) + (if t in terms then FrequencyOf(t)(segment) else 0))
  }

  lemma UnionStep(segments: seq<SegmentRows>, terms: seq<Term>, i: nat, after: map<Term, int>)
    requires i < |segments|
    requires Added(UnionFrequencies(segments[..i], terms), segments[i], terms, after)
    ensures after == UnionFrequencies(segments[..i + 1], terms)
  {
    var before, next := UnionFrequencies(segments[..i], terms), UnionFrequencies(segments[..i + 1], terms);
    forall t ensures t in after <==> t in next { KnownStep(segments, i, t); }
    forall t | t in after ensures after[t] == next[t] {
      KnownStep(segments, i, t);
      SumStep(FrequencyOf(t), segments, i);
    }
  }

  method UnionStatistics(segments: seq<SegmentRows>, terms: seq<Term>) returns (union: Statistics)
    requires Distinct(terms)
    ensures union == UnionOf(segments, terms)
  {
    var documents, total := 0, 0;
    var frequency: map<Term, int> := map[];
    for i := 0 to |segments|
      invariant documents == Sum(Documents(), segments[..i])
      invariant total == Sum(Terms(), segments[..i])
      invariant frequency == UnionFrequencies(segments[..i], terms)
    {
      SumStep(Documents(), segments, i);
      SumStep(Terms(), segments, i);
      documents := documents + segments[i].statistics.documentCount;
      total := total + segments[i].statistics.totalTermCount;
      frequency := AddFrequencies(frequency, segments[i], terms);
      UnionStep(segments, terms, i, frequency);
    }
    assert segments[..|segments|] == segments;
    union := Statistics(documents, total, frequency);
  }

  // ---------------------------------------------------------------- scope

  predicate AdmittedSegment(reader: Reader, segment: SegmentRows) { MayRead(reader, segment.manifest.tuple) }

  function AdmittedTo(reader: Reader): SegmentRows -> bool { (s: SegmentRows) => AdmittedSegment(reader, s) }

  function FactInScope(request: Request): FactRow -> bool {
    (f: FactRow) => InScope(request, f.association, f.at.record)
  }

  function PostingOf(facts: seq<FactRow>): PostingRow -> bool {
    (p: PostingRow) => exists f | f in facts :: f.at.atomId == p.atomId
  }

  /** A segment cut down to the facts in scope, its statistics recomputed over what is left. */
  function Narrow(request: Request): SegmentRows -> SegmentRows {
    (s: SegmentRows) =>
      var facts := Filter(FactInScope(request), s.facts);
      var postings := Filter(PostingOf(facts), s.postings);
      s.(facts := facts, postings := postings,
         statistics := StatisticsOf(postings, |facts|), lengths := LengthsOf(postings))
  }

  function ScopedSegments(segments: seq<SegmentRows>, request: Request): Result<seq<SegmentRows>, SearchError> {
    var admitted := Filter(AdmittedTo(request.reader), segments);
    if request.project.None? && request.records.None? then Success(admitted)
    else if request.project.Some? && request.project.value !in Grants(request.reader) then Failure(ProjectNotGranted)
    else Success(Map(Narrow(request), admitted))
  }

  // ---------------------------------------------------------------- scoring

  datatype Candidate = Candidate(fact: FactRow, content: ContentRow, score: int)

  function PairOf(): PostingRow -> (Term, Digest) { (p: PostingRow) => (p.term, p.atomId) }

  /** Postings count at least one, and no term is posted twice for one atom. */
  ghost predicate ProperPostings(postings: seq<PostingRow>) {
    && (forall i :: 0 <= i < |postings| ==> postings[i].count > 0)
    && Distinct(Map(PairOf(), postings))
  }

  /** How often each query term occurs in the atom; terms that do not occur are absent. */
  function FrequenciesIn(postings: seq<PostingRow>, id: Digest, terms: seq<Term>): map<Term, int> {
    map t | t in terms && Sum(CountOfPair(id, t), postings) > 0 :: Sum(CountOfPair(id, t), postings)
  }

  ghost predicate MatchesPrefix(matched: map<Digest, map<Term, int>>, postings: seq<PostingRow>, terms: seq<Term>) {
    && (forall id :: id in matched <==> FrequenciesIn(postings, id, terms) != map[])
    && (forall id :: id in matched ==> matched[id] == FrequenciesIn(postings, id, terms))
  }

  function Match(matched: map<Digest, map<Term, int>>, p: PostingRow): map<Digest, map<Term, int>> {
    matched[p.atomId := (if p.atomId in matched then matched[p.atomId] else map[])[p.term := p.count]]
  }

  lemma MatchStep(matched: map<Digest, map<Term, int>>, postings: seq<PostingRow>, terms: seq<Term>, i: nat)
    requires i < |postings| && ProperPostings(postings) && MatchesPrefix(matched, postings[..i], terms)
    ensures MatchesPrefix(if postings[i].term in terms then Match(matched, postings[i]) else matched, postings[..i + 1], terms)
  {
    var p := postings[i];
    FrequenciesStep(postings, i, terms);
    assert p.term in FrequenciesIn(postings[..i], p.atomId, terms)[p.term := p.count];
  }

  method MatchedFrequencies(postings: seq<PostingRow>, terms: seq<Term>) returns (matched: map<Digest, map<Term, int>>)
    requires ProperPostings(postings)
    ensures forall id :: id in matched <==> FrequenciesIn(postings, id, terms) != map[]
    ensures forall id :: id in matched ==> matched[id] == FrequenciesIn(postings, id, terms)
  {
    var queryTerms := set t | t in terms;
    matched := map[];
    for i := 0 to |postings|
      invariant MatchesPrefix(matched, postings[..i], terms)
    {
      MatchStep(matched, postings, terms, i);
      if postings[i].term in queryTerms {
        matched := Match(matched, postings[i]);
      }
    }
    assert postings[..|postings|] == postings;
  }

  lemma FrequenciesStep(postings: seq<PostingRow>, i: nat, terms: seq<Term>)
    requires i < |postings| && ProperPostings(postings)
    ensures forall id :: (FrequenciesIn(postings[..i + 1], id, terms) ==
      (if id == postings[i].atomId && postings[i].term in terms
       then FrequenciesIn(postings[..i], id, terms)[postings[i].term := postings[i].count]
       else FrequenciesIn(postings[..i], id, terms)))
  {
    var p := postings[i];
    forall x | x in postings[..i] ensures CountOfPair(p.atomId, p.term)(x) == 0 {
      var j :| 0 <= j < i && postings[j] == x;
      assert Map(PairOf(), postings)[j] != Map(PairOf(), postings)[i];
    }
    SumAbsent(CountOfPair(p.atomId, p.term), postings[..i]);
    forall id
      ensures FrequenciesIn(postings[..i + 1], id, terms) ==
        if id == p.atomId && p.term in terms then FrequenciesIn(postings[..i], id, terms)[p.term := p.count]
        else FrequenciesIn(postings[..i], id, terms)
    {
      forall t ensures Sum(CountOfPair(id, t), postings[..i + 1]) ==
          Sum(CountOfPair(id, t), postings[..i]) + if id == p.atomId && t == p.term then p.count else 0
      {
        SumStep(CountOfPair(id, t), postings, i);
      }
    }
  }

  /** The candidate a fact makes, if a query term matches it with a positive score. */
  function CandidateAt(k: Kernel, segment: SegmentRows, terms: seq<Term>, statistics: Statistics): FactRow -> seq<Candidate> {
    (fact: FactRow) =>
      var id := fact.at.atomId;
      var frequencies := FrequenciesIn(segment.postings, id, terms);
      if frequencies == map[] || id !in segment.content || id !in segment.lengths then []
      else
        var score := k.score(frequencies, segment.lengths[id], terms, statistics);
        if score > 0 then [Candidate(fact, segment.content[id], score)] else []
  }

  function SegmentCandidates(k: Kernel, terms: seq<Term>, statistics: Statistics): SegmentRows -> seq<Candidate> {
    (s: SegmentRows) => FlatMap(CandidateAt(k, s, terms, statistics), s.facts)
  }

  lemma FlatMapStep<T, U>(f: T -> seq<U>, s: seq<T>, i: nat)
    requires i < |s|
    ensures FlatMap(f, s[..i + 1]) == FlatMap(f, s[..i]) + f(s[i])
  {
    assert s[..i + 1] == s[..i] + [s[i]];
    FlatMapConcat(f, s[..i], [s[i]]);
    assert FlatMap(f, [s[i]]) == f(s[i]) + FlatMap(f, [s[i]][1..]);
  }

  method ScoreSegment(k: Kernel, segment: SegmentRows, terms: seq<Term>, statistics: Statistics) returns (candidates: seq<Candidate>)
    requires ProperPostings(segment.postings)
    ensures candidates == SegmentCandidates(k, terms, statistics)(segment)
  {
    candidates := [];
    var matched := MatchedFrequencies(segment.postings, terms);
    for i := 0 to |segment.facts|
      invariant candidates == FlatMap(CandidateAt(k, segment, terms, statistics), segment.facts[..i])
    {
      var fact := segment.facts[i];
      var id := fact.at.atomId;
      FlatMapStep(CandidateAt(k, segment, terms, statistics), segment.facts, i);
      if id in matched && id in segment.content && id in segment.lengths {
        var score := k.score(matched[id], segment.lengths[id], terms, statistics);
        if score > 0 {
          candidates := candidates + [Candidate(fact, segment.content[id], score)];
        }
      }
    }
    assert segment.facts[..|segment.facts|] == segment.facts;
  }

  method ScoreAdmittedCandidates(k: Kernel, admitted: seq<SegmentRows>, terms: seq<Term>) returns (candidates: seq<Candidate>)
    requires Distinct(terms)
    requires forall s :: s in admitted ==> ProperPostings(s.postings)
    ensures candidates == FlatMap(SegmentCandidates(k, terms, UnionOf(admitted, terms)), admitted)
  {
    var statistics := UnionStatistics(admitted, terms);
    candidates := [];
    for i := 0 to |admitted|
      invariant candidates == FlatMap(SegmentCandidates(k, terms, statistics), admitted[..i])
    {
      FlatMapStep(SegmentCandidates(k, terms, statistics), admitted, i);
      var more := ScoreSegment(k, admitted[i], terms, statistics);
      candidates := candidates + more;
    }
    assert admitted[..|admitted|] == admitted;
  }

  // ---------------------------------------------------------------- results

  function ResultItem(fact: FactRow, content: ContentRow): Item {
    Item(fact.at.atomId, fact.at.position, fact.at.record, fact.at.envelope, content.kind, content.text,
         fact.policy, fact.at.order, |fact.audience|)
  }

  function CandidateItem(): Candidate -> Item { (c: Candidate) => ResultItem(c.fact, c.content) }

  function CandidateKey(): Candidate -> Key {
    (c: Candidate) => [-c.score, -c.fact.at.position, c.fact.at.order, c.fact.at.atomId]
  }

  function WantedCandidate(request: Request): Candidate -> bool {
    (c: Candidate) => Wanted(request, c.content.kind, c.fact.at.record, c.fact.at.order, c.fact.policy)
  }
}
