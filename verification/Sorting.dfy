/**
 * Sorting by a key. Every ordering the modelled code uses is the lexicographic
 * order of a sequence of integers: code units, bytes, or several numbers
 * compared one after the other (negated where the code sorts downwards).
 */
module Sorting {
  import opened Sequences

  type Key = seq<int>

  predicate Less(a: Key, b: Key) {
    b != [] && (a == [] || a[0] < b[0] || (a[0] == b[0] && Less(a[1..], b[1..])))
  }

  lemma {:induction false} LessTotal(a: Key, b: Key)
    ensures a == b || Less(a, b) || Less(b, a)
  {
    if a != [] && b != [] && a[0] == b[0] {
      LessTotal(a[1..], b[1..]);
      assert a == [a[0]] + a[1..] && b == [b[0]] + b[1..];
    }
  }

  lemma {:induction false} LessAsymmetric(a: Key, b: Key)
    requires Less(a, b)
    ensures !Less(b, a) && a != b
  {
    if a != [] && a[0] == b[0] { LessAsymmetric(a[1..], b[1..]); }
  }

  lemma LessIrreflexive(a: Key)
    ensures !Less(a, a)
  {
    if Less(a, a) { LessAsymmetric(a, a); }
  }

  lemma {:induction false} LessTransitive(a: Key, b: Key, c: Key)
    requires Less(a, b) && Less(b, c)
    ensures Less(a, c)
  {
    if a != [] && a[0] == b[0] && b[0] == c[0] { LessTransitive(a[1..], b[1..], c[1..]); }
  }

  /** Not above, then not above: `a` is at most `b` and `b` at most `c`. */
  lemma AtMostTransitive(a: Key, b: Key, c: Key)
    requires !Less(b, a) && !Less(c, b)
    ensures !Less(c, a)
  {
    LessTotal(a, b);
    LessTotal(b, c);
    if a != b && b != c { LessTransitive(a, b, c); }
    if Less(c, a) {
      LessAsymmetric(c, a);
    }
  }

  ghost predicate Sorted<T>(key: T -> Key, s: seq<T>) {
    forall i, j :: 0 <= i < j < |s| ==> !Less(key(s[j]), key(s[i]))
  }

  /** Equal keys only on equal elements. */
  ghost predicate Separates<T>(key: T -> Key, s: seq<T>) {
    forall i, j :: 0 <= i < |s| && 0 <= j < |s| && key(s[i]) == key(s[j]) ==> s[i] == s[j]
  }

  /** Puts `x` before the first element that is not below it. */
  function Insert<T>(key: T -> Key, x: T, s: seq<T>): seq<T> {
    if s == [] || !Less(key(s[0]), key(x)) then [x] + s else [s[0]] + Insert(key, x, s[1..])
  }

  /** The stable sort of `s` by `key`. */
  function Sort<T>(key: T -> Key, s: seq<T>): seq<T> {
    if s == [] then [] else Insert(key, s[0], Sort(key, s[1..]))
  }

  lemma {:induction false} InsertPermutes<T>(key: T -> Key, x: T, s: seq<T>)
    ensures multiset(Insert(key, x, s)) == multiset([x] + s)
  {
    if s == [] || !Less(key(s[0]), key(x)) {
    } else {
      InsertPermutes(key, x, s[1..]);
      assert s == [s[0]] + s[1..];
    }
  }

  lemma {:induction false} InsertSorted<T>(key: T -> Key, x: T, s: seq<T>)
    requires Sorted(key, s)
    ensures Sorted(key, Insert(key, x, s))
  {
    if s == [] {
    } else if !Less(key(s[0]), key(x)) {
      forall j | 0 <= j < |s| ensures !Less(key(s[j]), key(x)) {
        LessIrreflexive(key(s[0]));
        AtMostTransitive(key(x), key(s[0]), key(s[j]));
      }
    } else {
      var tail := Insert(key, x, s[1..]);
      InsertSorted(key, x, s[1..]);
      InsertPermutes(key, x, s[1..]);
      LessAsymmetric(key(s[0]), key(x));
      forall j | 0 <= j < |tail| ensures !Less(key(tail[j]), key(s[0])) {
        assert tail[j] in multiset(tail);
        assert tail[j] in multiset([x] + s[1..]);
        assert tail[j] in [x] + s[1..];
      }
    }
  }

  lemma {:induction false} SortPermutes<T>(key: T -> Key, s: seq<T>)
    ensures multiset(Sort(key, s)) == multiset(s)
    ensures |Sort(key, s)| == |s|
  {
    if s != [] {
      SortPermutes(key, s[1..]);
      InsertPermutes(key, s[0], Sort(key, s[1..]));
      assert s == [s[0]] + s[1..];
    }
    SamePermutedLength(Sort(key, s), s);
  }

  lemma {:induction false} SortSorts<T>(key: T -> Key, s: seq<T>)
    ensures Sorted(key, Sort(key, s))
  {
    if s != [] {
      SortSorts(key, s[1..]);
      InsertSorted(key, s[0], Sort(key, s[1..]));
    }
  }

  lemma SortMembers<T>(key: T -> Key, s: seq<T>)
    ensures forall x :: x in Sort(key, s) <==> x in s
  {
    SortPermutes(key, s);
    forall x ensures x in Sort(key, s) <==> x in s {
      assert x in Sort(key, s) <==> x in multiset(Sort(key, s));
      assert x in s <==> x in multiset(s);
    }
  }

  /** A sorted arrangement is determined by its elements once keys tell them apart. */
  lemma {:induction false} SortedUnique<T>(key: T -> Key, a: seq<T>, b: seq<T>)
    requires multiset(a) == multiset(b)
    requires Sorted(key, a) && Sorted(key, b) && Separates(key, a)
    ensures a == b
  {
    SamePermutedLength(a, b);
    if a != [] {
      SameHead(key, a, b);
      TailBag(a);
      TailBag(b);
      TailSorted(key, a);
      TailSorted(key, b);
      TailSeparates(key, a);
      SortedUnique(key, a[1..], b[1..]);
    }
  }

  lemma TailBag<T>(s: seq<T>)
    requires s != []
    ensures multiset(s[1..]) == multiset(s) - multiset{s[0]}
    ensures s == [s[0]] + s[1..]
  {
    assert s == [s[0]] + s[1..];
  }

  lemma TailSorted<T>(key: T -> Key, s: seq<T>)
    requires s != [] && Sorted(key, s)
    ensures Sorted(key, s[1..])
  {
  }

  lemma TailSeparates<T>(key: T -> Key, s: seq<T>)
    requires s != [] && Separates(key, s)
    ensures Separates(key, s[1..])
  {
    forall i, j | 0 <= i < |s| - 1 && 0 <= j < |s| - 1 && key(s[1..][i]) == key(s[1..][j]) ensures s[1..][i] == s[1..][j] {
      assert key(s[i + 1]) == key(s[j + 1]);
    }
  }

  lemma SameHead<T>(key: T -> Key, a: seq<T>, b: seq<T>)
    requires multiset(a) == multiset(b) && a != [] && b != []
    requires Sorted(key, a) && Sorted(key, b) && Separates(key, a)
    ensures a[0] == b[0]
  {
    assert a[0] in multiset(b) && b[0] in multiset(a);
    var i :| 0 <= i < |b| && b[i] == a[0];
    var j :| 0 <= j < |a| && a[j] == b[0];
    LessTotal(key(a[0]), key(b[0]));
    assert key(a[0]) == key(a[j]);
  }

  /** Sorting forgets the order of its input. */
  lemma SortForgetsOrder<T>(key: T -> Key, a: seq<T>, b: seq<T>)
    requires multiset(a) == multiset(b)
    requires Separates(key, a)
    ensures Sort(key, a) == Sort(key, b)
  {
    SortPermutes(key, a);
    SortPermutes(key, b);
    SortSorts(key, a);
    SortSorts(key, b);
    SeparatesPermutes(key, a, Sort(key, a));
    SortedUnique(key, Sort(key, a), Sort(key, b));
  }

  lemma SeparatesPermutes<T>(key: T -> Key, a: seq<T>, b: seq<T>)
    requires multiset(a) == multiset(b) && Separates(key, a)
    ensures Separates(key, b)
  {
    forall i, j | 0 <= i < |b| && 0 <= j < |b| && key(b[i]) == key(b[j]) ensures b[i] == b[j] {
      assert b[i] in multiset(a) && b[j] in multiset(a);
      var m :| 0 <= m < |a| && a[m] == b[i];
      var n :| 0 <= n < |a| && a[n] == b[j];
    }
  }

  /** Sorting what `f` made of `s` is the same as making it from the sorted `s`. */
  lemma {:induction false} SortMap<T, U>(key: T -> Key, ukey: U -> Key, f: T -> U, s: seq<T>)
    requires forall x :: ukey(f(x)) == key(x)
    ensures Sort(ukey, Map(f, s)) == Map(f, Sort(key, s))
  {
    if s != [] {
      assert Map(f, s)[1..] == Map(f, s[1..]);
      SortMap(key, ukey, f, s[1..]);
      InsertMap(key, ukey, f, s[0], Sort(key, s[1..]));
    }
  }

  lemma {:induction false} InsertMap<T, U>(key: T -> Key, ukey: U -> Key, f: T -> U, x: T, s: seq<T>)
    requires forall y :: ukey(f(y)) == key(y)
    ensures Insert(ukey, f(x), Map(f, s)) == Map(f, Insert(key, x, s))
  {
    if s != [] && Less(key(s[0]), key(x)) {
      assert Map(f, s)[1..] == Map(f, s[1..]);
      InsertMap(key, ukey, f, x, s[1..]);
    }
  }
}
