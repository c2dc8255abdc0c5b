/** The simple thing the search index speeds up. */
module SearchFlat {
  import opened Sequences
  import opened Sorting
  import opened SearchModel

  predicate Visible(request: Request, a: Atom) {
    MayRead(request.reader, TupleOf(a)) && InScope(request, OrEmpty(a.association), a.at.record)
  }

  function VisibleTo(request: Request): Atom -> bool { (a: Atom) => Visible(request, a) }

  /** How often `t` occurs in the atom. */
  function CountOfTerm(t: Term): Count -> int { (c: Count) => if c.term == t then c.count else 0 }

  function Occurrences(k: Kernel, a: Atom, t: Term): int { Sum(CountOfTerm(t), CountsOf(k, a)) }

  function AnyCount(): Count -> int { (c: Count) => c.count }

  function LengthOf(k: Kernel): Atom -> int { (a: Atom) => Sum(AnyCount(), CountsOf(k, a)) }

  function Holds(k: Kernel, t: Term): Atom -> int { (a: Atom) => if Occurrences(k, a, t) > 0 then 1 else 0 }

  /** In how many of the atoms `t` occurs. */
  function DocumentFrequency(k: Kernel, atoms: seq<Atom>, t: Term): int { Sum(Holds(k, t), atoms) }

  /** The statistics of exactly these atoms, for the terms asked about. */
  function FlatStatistics(k: Kernel, atoms: seq<Atom>, terms: seq<Term>): Statistics {
    Statistics(|atoms|, Sum(LengthOf(k), atoms),
               map t | t in terms && DocumentFrequency(k, atoms, t) > 0 :: DocumentFrequency(k, atoms, t))
  }

  function Frequencies(k: Kernel, a: Atom, terms: seq<Term>): map<Term, int> {
    map t | t in terms && Occurrences(k, a, t) > 0 :: Occurrences(k, a, t)
  }

  datatype Scored = Scored(atom: Atom, score: int)

  function ScoreOf(k: Kernel, terms: seq<Term>, statistics: Statistics): Atom -> Scored {
    (a: Atom) => Scored(a, k.score(Frequencies(k, a, terms), LengthOf(k)(a), terms, statistics))
  }

  /** Atoms that hold a query term, with a positive score, and that the request wants. */
  function Relevant(k: Kernel, terms: seq<Term>, request: Request): Scored -> bool {
    (s: Scored) => Frequencies(k, s.atom, terms) != map[] && s.score > 0
         && Wanted(request, s.atom.at.kind, s.atom.at.record, s.atom.at.order, s.atom.policy)
  }

  /** Best score first, then newest record, then order in the record, then identity. */
  function ScoredKey(): Scored -> Key {
    (s: Scored) => [-s.score, -s.atom.at.position, s.atom.at.order, s.atom.at.atomId]
  }

  function ItemOf(a: Atom): Item {
    Item(a.at.atomId, a.at.position, a.at.record, a.at.envelope, a.at.kind, a.text, a.policy, a.at.order, |OrEmpty(a.audience)|)
  }

  function ScoredItem(): Scored -> Item { (s: Scored) => ItemOf(s.atom) }

  function Cut(items: seq<Item>, limit: nat): Found { Found(Take(items, limit), |items| > limit) }

  function FlatRanking(k: Kernel, visible: seq<Atom>, terms: seq<Term>, request: Request): seq<Scored> {
    var scored := Map(ScoreOf(k, terms, FlatStatistics(k, visible, terms)), visible);
    Sort(ScoredKey(), Filter(Relevant(k, terms, request), scored))
  }

  /** What a search over all the atoms one by one returns. */
  function FlatSearch(k: Kernel, atoms: seq<Atom>, terms: seq<Term>, request: Request, limit: nat): Found {
    Cut(Map(ScoredItem(), FlatRanking(k, Filter(VisibleTo(request), atoms), terms, request)), limit)
  }

  /** Newest record first, then order in the record, then identity. */
  function InventoryKey(): Atom -> Key { (a: Atom) => [-a.at.position, a.at.order, a.at.atomId] }

  function WantedAtom(request: Request): Atom -> bool {
    (a: Atom) => Wanted(request, a.at.kind, a.at.record, a.at.order, a.policy)
  }

  function AtomItem(): Atom -> Item { (a: Atom) => ItemOf(a) }

  /** What a list of all the readable atoms returns. */
  function FlatList(atoms: seq<Atom>, request: Request, limit: nat): Found {
    Cut(Map(AtomItem(), Sort(InventoryKey(), Filter(WantedAtom(request), Filter(VisibleTo(request), atoms)))), limit)
  }

  /** Opening named atoms: those that are visible, in the order they were named. */
  function FlatRead(atoms: seq<Atom>, ids: seq<Digest>, request: Request): seq<Item> {
    FlatMap(OpenAtom(Filter(VisibleTo(request), atoms)), ids)
  }

  function OpenAtom(visible: seq<Atom>): Digest -> seq<Item> { (id: Digest) => Map(AtomItem(), Filter(HasId(id), visible)) }

  function HasId(id: Digest): Atom -> bool { (a: Atom) => a.at.atomId == id }

  // ---------------------------------------------------------------- the answer depends on the visible atoms only

  /** Two corpora that agree, in any order, on what the reader and scope admit give the same answer. */
  lemma FlatSearchSeesOnlyVisible(k: Kernel, a: seq<Atom>, b: seq<Atom>, terms: seq<Term>, request: Request, limit: nat)
    requires multiset(Filter(VisibleTo(request), a)) == multiset(Filter(VisibleTo(request), b))
    requires DistinctAtoms(Filter(VisibleTo(request), a))
    ensures FlatSearch(k, a, terms, request, limit) == FlatSearch(k, b, terms, request, limit)
  {
    var va, vb := Filter(VisibleTo(request), a), Filter(VisibleTo(request), b);
    RankingForgetsOrder(k, va, vb, terms, request);
  }

  lemma StatisticsForgetOrder(k: Kernel, a: seq<Atom>, b: seq<Atom>, terms: seq<Term>)
    requires multiset(a) == multiset(b)
    ensures FlatStatistics(k, a, terms) == FlatStatistics(k, b, terms)
  {
    SamePermutedLength(a, b);
    SumPermutes(LengthOf(k), a, b);
    forall t ensures DocumentFrequency(k, a, t) == DocumentFrequency(k, b, t) { SumPermutes(Holds(k, t), a, b); }
  }

  lemma RankingForgetsOrder(k: Kernel, a: seq<Atom>, b: seq<Atom>, terms: seq<Term>, request: Request)
    requires multiset(a) == multiset(b) && DistinctAtoms(a)
    ensures FlatRanking(k, a, terms, request) == FlatRanking(k, b, terms, request)
  {
    StatisticsForgetOrder(k, a, b, terms);
    var score := ScoreOf(k, terms, FlatStatistics(k, a, terms));
    MapPermutes(score, a, b);
    FilterPermutes(Relevant(k, terms, request), Map(score, a), Map(score, b));
    ScoredSeparates(k, a, score, Relevant(k, terms, request));
    SortForgetsOrder(ScoredKey(), Filter(Relevant(k, terms, request), Map(score, a)), Filter(Relevant(k, terms, request), Map(score, b)));
  }

  /** Distinct identities keep scored atoms apart in the ranking. */
  lemma ScoredSeparates(k: Kernel, a: seq<Atom>, score: Atom -> Scored, keep: Scored -> bool)
    requires DistinctAtoms(a)
    requires forall x :: score(x).atom == x
    ensures Separates(ScoredKey(), Filter(keep, Map(score, a)))
  {
    var all := Map(score, a);
    var kept := Filter(keep, all);
    FilterMembers(keep, all);
    forall i, j | 0 <= i < |kept| && 0 <= j < |kept| && ScoredKey()(kept[i]) == ScoredKey()(kept[j])
      ensures kept[i] == kept[j]
    {
      var m :| 0 <= m < |all| && all[m] == kept[i];
      var n :| 0 <= n < |all| && all[n] == kept[j];
      assert ScoredKey()(kept[i])[3] == ScoredKey()(kept[j])[3];
      assert Map(IdOf(), a)[m] == Map(IdOf(), a)[n];
      DistinctAt(Map(IdOf(), a), m, n);
    }
  }
}
