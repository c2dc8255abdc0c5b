/**
 * Folds over sequences: filtering, mapping, summing and what they keep when
 * the sequence is permuted, cut or joined. Nothing here is particular to the
 * modelled system.
 */
module Sequences {

  function Map<T, U>(f: T -> U, s: seq<T>): (r: seq<U>)
    ensures |r| == |s|
    ensures forall i :: 0 <= i < |s| ==> r[i] == f(s[i])
  {
    if s == [] then [] else [f(s[0])] + Map(f, s[1..])
  }

  function Filter<T>(p: T -> bool, s: seq<T>): seq<T>
  {
    if s == [] then [] else (if p(s[0]) then [s[0]] else []) + Filter(p, s[1..])
  }

  function FlatMap<T, U>(f: T -> seq<U>, s: seq<T>): seq<U>
  {
    if s == [] then [] else f(s[0]) + FlatMap(f, s[1..])
  }

  function Sum<T>(f: T -> int, s: seq<T>): int
  {
    if s == [] then 0 else f(s[0]) + Sum(f, s[1..])
  }

  /** The elements `f` yields along `s`, counted with multiplicity. */
  ghost function Bag<T, U>(f: T -> multiset<U>, s: seq<T>): multiset<U>
  {
    if s == [] then multiset{} else f(s[0]) + Bag(f, s[1..])
  }

  ghost predicate Distinct<T>(s: seq<T>) {
    forall i, j :: 0 <= i < j < |s| ==> s[i] != s[j]
  }

  lemma PrefixGrows<T>(s: seq<T>, i: nat)
    requires i < |s|
    ensures s[..i + 1] == s[..i] + [s[i]]
  {
  }

  lemma DistinctParts<T>(a: seq<T>, b: seq<T>)
    requires Distinct(a + b)
    ensures Distinct(a) && Distinct(b)
    ensures forall i, j :: 0 <= i < |a| && 0 <= j < |b| ==> a[i] != b[j]
  {
    forall i, j | 0 <= i < |a| && 0 <= j < |b| ensures a[i] != b[j] { assert (a + b)[i] != (a + b)[|a| + j]; }
    forall i, j | 0 <= i < j < |a| ensures a[i] != a[j] { assert (a + b)[i] != (a + b)[j]; }
    forall i, j | 0 <= i < j < |b| ensures b[i] != b[j] { assert (a + b)[|a| + i] != (a + b)[|a| + j]; }
  }

  lemma DistinctAt<T>(s: seq<T>, m: nat, n: nat)
    requires Distinct(s) && m < |s| && n < |s| && s[m] == s[n]
    ensures m == n
  {
  }

  // ---------------------------------------------------------------- concatenation

  lemma {:induction false} SumConcat<T>(f: T -> int, a: seq<T>, b: seq<T>)
    ensures Sum(f, a + b) == Sum(f, a) + Sum(f, b)
  {
    if a == [] {
      assert a + b == b;
    } else {
      assert (a + b)[1..] == a[1..] + b;
      SumConcat(f, a[1..], b);
    }
  }

  lemma {:induction false} BagConcat<T, U>(f: T -> multiset<U>, a: seq<T>, b: seq<T>)
    ensures Bag(f, a + b) == Bag(f, a) + Bag(f, b)
  {
    if a == [] {
      assert a + b == b;
    } else {
      assert (a + b)[1..] == a[1..] + b;
      BagConcat(f, a[1..], b);
    }
  }

  lemma {:induction false} FilterConcat<T>(p: T -> bool, a: seq<T>, b: seq<T>)
    ensures Filter(p, a + b) == Filter(p, a) + Filter(p, b)
  {
    if a == [] {
      assert a + b == b;
    } else {
      var head := if p(a[0]) then [a[0]] else [];
      assert (a + b)[1..] == a[1..] + b;
      FilterConcat(p, a[1..], b);
      assert Filter(p, a + b) == head + Filter(p, a[1..] + b);
      assert head + (Filter(p, a[1..]) + Filter(p, b)) == (head + Filter(p, a[1..])) + Filter(p, b);
    }
  }

  lemma {:induction false} MapConcat<T, U>(f: T -> U, a: seq<T>, b: seq<T>)
    ensures Map(f, a + b) == Map(f, a) + Map(f, b)
  {
  }

  lemma {:induction false} FlatMapConcat<T, U>(f: T -> seq<U>, a: seq<T>, b: seq<T>)
    ensures FlatMap(f, a + b) == FlatMap(f, a) + FlatMap(f, b)
  {
    if a == [] {
      assert a + b == b;
    } else {
      assert (a + b)[1..] == a[1..] + b;
      FlatMapConcat(f, a[1..], b);
    }
  }

  // ---------------------------------------------------------------- permutation

  /** Taking the element at `i` to the front leaves every fold that adds up unchanged. */
  lemma SumMove<T>(f: T -> int, s: seq<T>, i: nat)
    requires i < |s|
    ensures Sum(f, s) == f(s[i]) + Sum(f, s[..i] + s[i + 1..])
  {
    var a, x, b := s[..i], [s[i]], s[i + 1..];
    assert s == a + (x + b);
    SumConcat(f, a, x + b);
    SumConcat(f, x, b);
    SumConcat(f, a, b);
    assert x[1..] == [];
    assert Sum(f, x) == f(s[i]) + Sum(f, x[1..]);
  }

  lemma BagMove<T, U>(f: T -> multiset<U>, s: seq<T>, i: nat)
    requires i < |s|
    ensures Bag(f, s) == f(s[i]) + Bag(f, s[..i] + s[i + 1..])
  {
    var a, x, b := s[..i], [s[i]], s[i + 1..];
    assert s == a + (x + b);
    BagConcat(f, a, x + b);
    BagConcat(f, x, b);
    BagConcat(f, a, b);
    assert x[1..] == [];
    assert Bag(f, x) == f(s[i]) + Bag(f, x[1..]);
  }

  /** Where `a[0]` stands in a permutation `b` of `a`; what is left is a permutation of `a[1..]`. */
  lemma Pick<T>(a: seq<T>, b: seq<T>) returns (i: nat)
    requires a != [] && multiset(a) == multiset(b)
    ensures i < |b| && b[i] == a[0]
    ensures multiset(b[..i] + b[i + 1..]) == multiset(a[1..])
  {
    assert a == [a[0]] + a[1..];
    assert a[0] in multiset(b);
    i :| 0 <= i < |b| && b[i] == a[0];
    assert b == b[..i] + [b[i]] + b[i + 1..];
    assert multiset(b) == multiset(b[..i] + b[i + 1..]) + multiset{b[i]};
    assert multiset(a) == multiset{a[0]} + multiset(a[1..]);
    assert multiset(b[..i] + b[i + 1..]) == multiset(b) - multiset{b[i]};
    assert multiset(a[1..]) == multiset(a) - multiset{a[0]};
  }

  lemma {:induction false} SumPermutes<T>(f: T -> int, a: seq<T>, b: seq<T>)
    requires multiset(a) == multiset(b)
    ensures Sum(f, a) == Sum(f, b)
  {
    SamePermutedLength(a, b);
    if a != [] {
      var i := Pick(a, b);
      SumMove(f, b, i);
      SumPermutes(f, a[1..], b[..i] + b[i + 1..]);
    }
  }

  lemma {:induction false} BagPermutes<T, U>(f: T -> multiset<U>, a: seq<T>, b: seq<T>)
    requires multiset(a) == multiset(b)
    ensures Bag(f, a) == Bag(f, b)
  {
    SamePermutedLength(a, b);
    if a != [] {
      var i := Pick(a, b);
      BagMove(f, b, i);
      BagPermutes(f, a[1..], b[..i] + b[i + 1..]);
    }
  }

  lemma SamePermutedLength<T>(a: seq<T>, b: seq<T>)
    requires multiset(a) == multiset(b)
    ensures |a| == |b|
  {
    assert |multiset(a)| == |a|;
    assert |multiset(b)| == |b|;
  }

  // The multiset of a filtered, mapped or flattened sequence is a bag.

  ghost function KeepBag<T>(p: T -> bool): T -> multiset<T> { x => if p(x) then multiset{x} else multiset{} }

  ghost function OneBag<T, U>(f: T -> U): T -> multiset<U> { x => multiset{f(x)} }

  ghost function ManyBag<T, U>(f: T -> seq<U>): T -> multiset<U> { x => multiset(f(x)) }

  lemma {:induction false} FilterBag<T>(p: T -> bool, s: seq<T>)
    ensures multiset(Filter(p, s)) == Bag(KeepBag(p), s)
  {
    if s != [] { FilterBag(p, s[1..]); }
  }

  lemma {:induction false} MapBag<T, U>(f: T -> U, s: seq<T>)
    ensures multiset(Map(f, s)) == Bag(OneBag(f), s)
  {
    if s != [] { MapBag(f, s[1..]); }
  }

  lemma {:induction false} FlatMapBag<T, U>(f: T -> seq<U>, s: seq<T>)
    ensures multiset(FlatMap(f, s)) == Bag(ManyBag(f), s)
  {
    if s != [] { FlatMapBag(f, s[1..]); }
  }

  lemma FilterPermutes<T>(p: T -> bool, a: seq<T>, b: seq<T>)
    requires multiset(a) == multiset(b)
    ensures multiset(Filter(p, a)) == multiset(Filter(p, b))
  {
    FilterBag(p, a);
    FilterBag(p, b);
    BagPermutes(KeepBag(p), a, b);
  }

  lemma MapPermutes<T, U>(f: T -> U, a: seq<T>, b: seq<T>)
    requires multiset(a) == multiset(b)
    ensures multiset(Map(f, a)) == multiset(Map(f, b))
  {
    MapBag(f, a);
    MapBag(f, b);
    BagPermutes(OneBag(f), a, b);
  }

  lemma FlatMapPermutes<T, U>(f: T -> seq<U>, a: seq<T>, b: seq<T>)
    requires multiset(a) == multiset(b)
    ensures multiset(FlatMap(f, a)) == multiset(FlatMap(f, b))
  {
    FlatMapBag(f, a);
    FlatMapBag(f, b);
    BagPermutes(ManyBag(f), a, b);
  }

  lemma {:induction false} DistinctCounts<T>(s: seq<T>)
    ensures Distinct(s) <==> forall x :: x in s ==> multiset(s)[x] == 1
  {
    if s != [] {
      DistinctCounts(s[1..]);
      assert s == [s[0]] + s[1..];
      assert multiset(s) == multiset{s[0]} + multiset(s[1..]);
      if forall x :: x in s ==> multiset(s)[x] == 1 {
        assert multiset(s)[s[0]] == 1;
        assert s[0] !in multiset(s[1..]);
        forall x | x in s[1..] ensures multiset(s[1..])[x] == 1 { assert multiset(s)[x] == 1; }
        assert Distinct(s[1..]);
        forall i, j | 0 <= i < j < |s| ensures s[i] != s[j] {
          if i > 0 { assert s[1..][i - 1] != s[1..][j - 1]; } else { assert s[j] in s[1..]; }
        }
      }
      if Distinct(s) {
        forall i, j | 0 <= i < j < |s[1..]| ensures s[1..][i] != s[1..][j] { assert s[i + 1] != s[j + 1]; }
        forall x | x in s ensures multiset(s)[x] == 1 {
          if x in s[1..] { assert multiset(s[1..])[x] == 1; }
        }
      }
    }
  }

  lemma DistinctPermutes<T>(a: seq<T>, b: seq<T>)
    requires multiset(a) == multiset(b) && Distinct(a)
    ensures Distinct(b)
  {
    DistinctCounts(a);
    DistinctCounts(b);
    forall x | x in b ensures multiset(b)[x] == 1 { assert x in multiset(a); }
  }

  lemma DistinctConcat<T>(a: seq<T>, b: seq<T>)
    requires Distinct(a) && Distinct(b) && forall x :: x in a ==> x !in b
    ensures Distinct(a + b)
  {
    forall i, j | 0 <= i < j < |a + b| ensures (a + b)[i] != (a + b)[j] {
      if i < |a| && |a| <= j { assert a[i] in a && b[j - |a|] in b; }
    }
  }

  // ---------------------------------------------------------------- membership and composition

  lemma {:induction false} FilterMembers<T>(p: T -> bool, s: seq<T>)
    ensures forall x :: x in Filter(p, s) <==> x in s && p(x)
    ensures |Filter(p, s)| <= |s|
    ensures forall i :: 0 <= i < |Filter(p, s)| ==> Filter(p, s)[i] in s && p(Filter(p, s)[i])
  {
    if s != [] {
      FilterMembers(p, s[1..]);
      assert s == [s[0]] + s[1..];
    }
  }

  lemma {:induction false} FlatMapMembers<T, U>(f: T -> seq<U>, s: seq<T>, y: U)
    ensures y in FlatMap(f, s) <==> exists x :: x in s && y in f(x)
  {
    if s != [] {
      FlatMapMembers(f, s[1..], y);
      assert s == [s[0]] + s[1..];
      if y in f(s[0]) { assert s[0] in s; }
      if y in FlatMap(f, s[1..]) {
        var x :| x in s[1..] && y in f(x);
        assert x in s;
      }
    }
  }

  lemma {:induction false} SumFlatMap<T, U>(f: U -> int, g: T -> seq<U>, h: T -> int, s: seq<T>)
    requires forall x :: x in s ==> h(x) == Sum(f, g(x))
    ensures Sum(f, FlatMap(g, s)) == Sum(h, s)
  {
    if s != [] {
      SumConcat(f, g(s[0]), FlatMap(g, s[1..]));
      SumFlatMap(f, g, h, s[1..]);
    }
  }

  lemma {:induction false} FilterSame<T>(p: T -> bool, q: T -> bool, s: seq<T>)
    requires forall x :: x in s ==> p(x) == q(x)
    ensures Filter(p, s) == Filter(q, s)
  {
    if s != [] { FilterSame(p, q, s[1..]); }
  }

  lemma {:induction false} FilterAll<T>(p: T -> bool, s: seq<T>)
    requires forall x :: x in s ==> p(x)
    ensures Filter(p, s) == s
  {
    if s != [] { FilterAll(p, s[1..]); }
  }

  lemma {:induction false} FilterNone<T>(p: T -> bool, s: seq<T>)
    requires forall x :: x in s ==> !p(x)
    ensures Filter(p, s) == []
  {
    if s != [] { FilterNone(p, s[1..]); }
  }

  lemma FilterOne<T>(p: T -> bool, x: T)
    ensures Filter(p, [x]) == if p(x) then [x] else []
  {
    assert [x][1..] == [];
    assert Filter(p, [x][1..]) == [];
  }

  lemma FilterTwice<T>(p: T -> bool, s: seq<T>)
    ensures Filter(p, Filter(p, s)) == Filter(p, s)
  {
    FilterMembers(p, s);
    FilterAll(p, Filter(p, s));
  }

  /** Filtering what `f` made of `s` is the same as making it from the filtered `s`. */
  lemma {:induction false} FilterMap<T, U>(p: U -> bool, q: T -> bool, f: T -> U, s: seq<T>)
    requires forall x :: x in s ==> q(x) == p(f(x))
    ensures Filter(p, Map(f, s)) == Map(f, Filter(q, s))
  {
    if s != [] {
      assert Map(f, s)[1..] == Map(f, s[1..]);
      FilterMap(p, q, f, s[1..]);
    }
  }

  lemma {:induction false} FlatMapSame<T, U>(f: T -> seq<U>, g: T -> seq<U>, s: seq<T>)
    requires forall x :: x in s ==> f(x) == g(x)
    ensures FlatMap(f, s) == FlatMap(g, s)
  {
    if s != [] { FlatMapSame(f, g, s[1..]); }
  }

  /** A filtered sequence keeps its distinct keys. */
  lemma {:induction false} FilterDistinct<T, K>(p: T -> bool, key: T -> K, s: seq<T>)
    requires Distinct(Map(key, s))
    ensures Distinct(Map(key, Filter(p, s)))
  {
    if s != [] {
      assert Map(key, s)[1..] == Map(key, s[1..]);
      FilterDistinct(p, key, s[1..]);
      FilterMembers(p, s[1..]);
      if p(s[0]) {
        var tail := Filter(p, s[1..]);
        assert Filter(p, s) == [s[0]] + tail;
        forall i, j | 0 <= i < j < |[s[0]] + tail|
          ensures Map(key, [s[0]] + tail)[i] != Map(key, [s[0]] + tail)[j]
        {
          if i == 0 {
            assert tail[j - 1] in s[1..] && ([s[0]] + tail)[j] == tail[j - 1];
            var k :| 0 <= k < |s[1..]| && s[1..][k] == tail[j - 1];
            assert Map(key, s)[0] != Map(key, s)[k + 1];
          } else {
            assert Map(key, tail)[i - 1] != Map(key, tail)[j - 1];
          }
        }
      }
    }
  }

  lemma {:induction false} FilterFilter<T>(p: T -> bool, q: T -> bool, r: T -> bool, s: seq<T>)
    requires forall x :: x in s ==> r(x) == (p(x) && q(x))
    ensures Filter(q, Filter(p, s)) == Filter(r, s)
  {
    if s != [] {
      FilterFilter(p, q, r, s[1..]);
      FilterConcat(q, if p(s[0]) then [s[0]] else [], Filter(p, s[1..]));
      FilterOne(q, s[0]);
    }
  }

  /** When `p` keeps all or nothing of what `g` makes, filtering can come first. */
  lemma {:induction false} FilterFlatMap<T, U>(p: U -> bool, q: T -> bool, g: T -> seq<U>, s: seq<T>)
    requires forall x, y :: x in s && y in g(x) ==> p(y) == q(x)
    ensures Filter(p, FlatMap(g, s)) == FlatMap(g, Filter(q, s))
  {
    if s != [] {
      FilterFlatMap(p, q, g, s[1..]);
      FilterConcat(p, g(s[0]), FlatMap(g, s[1..]));
      if q(s[0]) {
        FilterAll(p, g(s[0]));
      } else {
        FilterNone(p, g(s[0]));
        assert Filter(q, s) == Filter(q, s[1..]);
        assert Filter(p, FlatMap(g, s)) == Filter(p, FlatMap(g, s[1..]));
      }
    }
  }

  lemma {:induction false} MapMap<T, U, V>(f: T -> U, g: U -> V, h: T -> V, s: seq<T>)
    requires forall x :: x in s ==> g(f(x)) == h(x)
    ensures Map(g, Map(f, s)) == Map(h, s)
  {
  }

  /** Distinct elements and the same members: a permutation. */
  lemma SameMembers<T>(a: seq<T>, b: seq<T>)
    requires Distinct(a) && Distinct(b)
    requires forall x :: x in a <==> x in b
    ensures multiset(a) == multiset(b)
  {
    DistinctCounts(a);
    DistinctCounts(b);
    forall x ensures multiset(a)[x] == multiset(b)[x] {
      if x in a { assert multiset(a)[x] == 1 && multiset(b)[x] == 1; } else { assert x !in multiset(a) && x !in multiset(b); }
    }
  }

  lemma {:induction false} FilterCount<T>(p: T -> bool, s: seq<T>, x: T)
    ensures multiset(Filter(p, s))[x] == if p(x) then multiset(s)[x] else 0
  {
    if s != [] {
      FilterCount(p, s[1..], x);
      assert s == [s[0]] + s[1..];
    }
  }

  lemma {:induction false} FlatMapLength<T, U>(f: T -> seq<U>, n: T -> int, s: seq<T>)
    requires forall x :: x in s ==> n(x) == |f(x)|
    ensures |FlatMap(f, s)| == Sum(n, s)
  {
    if s != [] { FlatMapLength(f, n, s[1..]); }
  }

  lemma {:induction false} DistinctLength<T>(s: seq<T>, members: set<T>)
    requires Distinct(s) && forall x :: x in s <==> x in members
    ensures |s| == |members|
  {
    if s == [] {
      forall x ensures x !in members { assert x in s <==> x in members; }
      assert members == {};
    } else {
      var rest := members - {s[0]};
      assert s[0] in s;
      assert s == [s[0]] + s[1..];
      DistinctParts([s[0]], s[1..]);
      forall x ensures x in s[1..] <==> x in rest {
        assert x in s <==> x in members;
        if x in s[1..] {
          var j :| 0 <= j < |s[1..]| && s[1..][j] == x;
          assert s[0] != s[j + 1];
        }
      }
      DistinctLength(s[1..], rest);
      assert members == rest + {s[0]};
    }
  }
}
