/** What JSON.parse can return, and so exactly which texts parseCanonicalJson accepts. */
module JsonAcceptance {
  import opened Wrappers
  import opened Sequences
  import opened Sorting
  import opened Json
  import opened JsonParser
  import opened JsonRoundTrip
  import opened JsonCanonical

  // ---------------------------------------------------------------- numbers

  lemma {:induction false} DigitCountPrefix(s: Text, n: nat)
    requires DigitCount(s) <= n <= |s|
    ensures DigitCount(s[..n]) == DigitCount(s)
  {
    if s != [] && Digit(s[0]) {
      assert s[..n][1..] == s[1..][..n - 1];
      DigitCountPrefix(s[1..], n - 1);
    }
  }

  lemma TakeDrop(s: Text, i: nat, n: nat)
    requires i <= n <= |s|
    ensures s[..n][i..] == s[i..][..n - i]
  {
  }

  lemma FractionPrefix(s: Text, n: nat)
    requires FractionLength(s).Some? && FractionLength(s).value <= n <= |s|
    ensures FractionLength(s[..n]) == FractionLength(s)
  {
    if s != [] && s[0] == 0x2e {
      TakeDrop(s, 1, n);
      DigitCountPrefix(s[1..], n - 1);
    }
  }

  lemma ExponentPrefix(s: Text)
    requires ExponentLength(s).Some?
    ensures ExponentLength(s[..ExponentLength(s).value]) == ExponentLength(s)
  {
    var n := ExponentLength(s).value;
    if n > 0 {
      var sign := if |s| >= 2 && (s[1] == 0x2b || s[1] == 0x2d) then 1 else 0;
      TakeDrop(s, 1 + sign, n);
      DigitCountPrefix(s[1 + sign..], n - 1 - sign);
    }
  }

  lemma TailPrefix(s: Text)
    requires TailLength(s).Some?
    ensures TailLength(s[..TailLength(s).value]) == TailLength(s)
  {
    var n, f := TailLength(s).value, FractionLength(s).value;
    FractionPrefix(s, n);
    TakeDrop(s, f, n);
    ExponentPrefix(s[f..]);
  }

  lemma TailAfter(s: Text, i: nat, tail: nat)
    requires i + tail <= |s| && TailLength(s[i..]) == Some(tail)
    ensures TailLength(s[..i + tail][i..]) == Some(tail)
  {
    TakeDrop(s, i, i + tail);
    TailPrefix(s[i..]);
  }

  lemma WholeAfter(s: Text, i: nat, whole: nat, n: nat)
    requires i + whole <= n <= |s| && 0 < whole && WholeLength(s[i..]) == whole
    ensures WholeLength(s[..n][i..]) == whole
  {
    TakeDrop(s, i, n);
    WholePrefix(s[i..], n - i);
  }

  lemma NumberPrefixParts(s: Text, sign: nat, whole: nat, tail: nat)
    requires sign + whole + tail <= |s| && SignLength(s) == sign && 0 < whole
    requires WholeLength(s[sign..]) == whole && TailLength(s[sign + whole..]) == Some(tail)
    ensures IsNumber(s[..sign + whole + tail])
  {
    var n := sign + whole + tail;
    var t := s[..n];
    assert t[0] == s[0];
    assert WholeLength(t[sign..]) == whole by { WholeAfter(s, sign, whole, n); }
    assert TailLength(t[sign + whole..]) == Some(tail) by { TailAfter(s, sign + whole, tail); }
    NumberParts(t, sign, whole, tail);
  }

  /** The text a number token covers is a number token. */
  lemma NumberPrefix(s: Text)
    requires NumberLength(s) > 0
    ensures IsNumber(s[..NumberLength(s)])
  {
    var sign := SignLength(s);
    var whole := WholeLength(s[sign..]);
    NumberPrefixParts(s, sign, whole, TailLength(s[sign + whole..]).value);
  }

  lemma WholePrefix(s: Text, n: nat)
    requires 0 < WholeLength(s) <= n <= |s|
    ensures WholeLength(s[..n]) == WholeLength(s)
  {
    if s[0] != 0x30 { DigitCountPrefix(s, n); }
  }

  // ---------------------------------------------------------------- members

  lemma {:induction false} SetMemberKeeps(numerals: Numerals, members: seq<Member>, m: Member)
    requires WellFormed(numerals, Object(members)) && WellFormed(numerals, m.value)
    ensures WellFormed(numerals, Object(SetMember(members, m)))
    ensures forall x :: x in SetMember(members, m) ==> x == m || x in members
  {
    if members == [] {
    } else {
      var tail := members[1..];
      assert Map(Keys(), members) == [members[0].key] + Map(Keys(), tail);
      DistinctParts([members[0].key], Map(Keys(), tail));
      assert members == [members[0]] + tail;
      if members[0].key == m.key {
        var r := [m] + tail;
        assert r[1..] == tail;
        assert Map(Keys(), r) == Map(Keys(), members);
      } else {
        var more := SetMember(tail, m);
        var r := [members[0]] + more;
        SetMemberKeeps(numerals, tail, m);
        assert r[1..] == more;
        assert Map(Keys(), r) == [members[0].key] + Map(Keys(), more);
        KeyStaysNew(members[0].key, tail, m);
        DistinctConcat([members[0].key], Map(Keys(), more));
      }
    }
  }

  lemma KeyStaysNew(key: Text, members: seq<Member>, m: Member)
    requires key != m.key && key !in Map(Keys(), members)
    requires forall x :: x in SetMember(members, m) ==> x == m || x in members
    ensures key !in Map(Keys(), SetMember(members, m))
  {
    var r := SetMember(members, m);
    forall i | 0 <= i < |r| ensures Map(Keys(), r)[i] != key {
      assert r[i] in r;
      if r[i] != m {
        var j :| 0 <= j < |members| && members[j] == r[i];
        assert Map(Keys(), members)[j] == r[i].key;
      }
    }
  }

  lemma {:induction false} SetAllKeeps(numerals: Numerals, members: seq<Member>, more: seq<Member>)
    requires WellFormed(numerals, Object(members)) && WellFormedMembers(numerals, more)
    ensures WellFormed(numerals, Object(SetAll(members, more)))
    decreases |more|
  {
    if more != [] {
      SetMemberKeeps(numerals, members, more[0]);
      SetAllKeeps(numerals, SetMember(members, more[0]), more[1..]);
    }
  }

  // ---------------------------------------------------------------- parsed values

  /** Whatever the text, a parsed value has printable numbers and no object with a key twice. */
  lemma {:induction false} ParsedWellFormed(numerals: Numerals, s: Text)
    requires numerals.Valid() && ParseValue(numerals, s).Good?
    ensures WellFormed(numerals, ParseValue(numerals, s).value)
    decreases |s|, 1
  {
    var t := SkipWhite(s);
    if t[0] == OPEN_ARRAY {
      var after := SkipWhite(t[1..]);
      if after == [] || after[0] != CLOSE_ARRAY { ParsedItems(numerals, t[1..]); }
    } else if t[0] == OPEN_OBJECT {
      var after := SkipWhite(t[1..]);
      if after == [] || after[0] != CLOSE_OBJECT {
        ParsedMembers(numerals, t[1..]);
        SetAllKeeps(numerals, [], ParseMembers(numerals, t[1..]).value);
      }
    } else if ParseNumber(numerals, t).Good? && NumberLength(t) > 0 {
      NumberPrefix(t);
    }
  }

  lemma {:induction false} ParsedItems(numerals: Numerals, s: Text)
    requires numerals.Valid() && ParseItems(numerals, s).Good?
    ensures WellFormedAll(numerals, ParseItems(numerals, s).value)
    decreases |s|, 2
  {
    var first := ParseValue(numerals, s);
    ParsedWellFormed(numerals, s);
    var after := SkipWhite(first.rest);
    if after[0] == COMMA { ParsedItems(numerals, after[1..]); }
  }

  lemma {:induction false} ParsedMembers(numerals: Numerals, s: Text)
    requires numerals.Valid() && ParseMembers(numerals, s).Good?
    ensures WellFormedMembers(numerals, ParseMembers(numerals, s).value)
    decreases |s|, 2
  {
    var first := ParseMember(numerals, s);
    ParsedMember(numerals, s);
    var after := SkipWhite(first.rest);
    if after[0] == COMMA { ParsedMembers(numerals, after[1..]); }
  }

  lemma {:induction false} ParsedMember(numerals: Numerals, s: Text)
    requires numerals.Valid() && ParseMember(numerals, s).Good?
    ensures WellFormed(numerals, ParseMember(numerals, s).value.value)
    decreases |s|, 1
  {
    var start := SkipWhite(s);
    var key := ParseChars(start[1..]);
    var after := SkipWhite(key.rest);
    ParsedWellFormed(numerals, after[1..]);
  }

  // ---------------------------------------------------------------- acceptance

  /** parseCanonicalJson accepts exactly the printer's outputs, and returns the value in key order. */
  lemma AcceptsExactlyPrinted(numerals: Numerals, raw: Text)
    requires numerals.Valid()
    ensures ParseCanonical(numerals, raw).Some? <==> exists v :: WellFormed(numerals, v) && CanonicalJson(v) == Some(raw)
    ensures forall v :: WellFormed(numerals, v) && CanonicalJson(v) == Some(raw) ==> ParseCanonical(numerals, raw) == Some(Norm(v))
  {
    forall v | WellFormed(numerals, v) && CanonicalJson(v) == Some(raw)
      ensures ParseCanonical(numerals, raw) == Some(Norm(v))
    {
      AcceptsPrinted(numerals, v, raw);
    }
    if ParseCanonical(numerals, raw).Some? {
      var text := if raw != [] && raw[0] == BYTE_ORDER_MARK then raw[1..] else raw;
      ParsedWellFormed(numerals, text);
      var v := ParseCanonical(numerals, raw).value;
      assert WellFormed(numerals, v) && CanonicalJson(v) == Some(raw);
    }
  }

  /** Accepted texts are equal exactly when what they mean is: a digest of the text is a digest of the meaning. */
  lemma OneTextPerMeaning(numerals: Numerals, a: Text, b: Text)
    requires numerals.Valid() && ParseCanonical(numerals, a).Some? && ParseCanonical(numerals, b).Some?
    ensures a == b <==> Mean(ParseCanonical(numerals, a).value) == Mean(ParseCanonical(numerals, b).value)
  {
    AcceptsExactlyPrinted(numerals, a);
    AcceptsExactlyPrinted(numerals, b);
    var v :| WellFormed(numerals, v) && CanonicalJson(v) == Some(a);
    var w :| WellFormed(numerals, w) && CanonicalJson(w) == Some(b);
    PrintSeparatesMeanings(numerals, v, w);
    NormMeans(numerals, v);
    NormMeans(numerals, w);
  }

  /** A leading byte order mark, which the reader strips before parsing, is refused all the same, and so is white space. */
  lemma RefusesMarkAndSpace(numerals: Numerals, raw: Text)
    requires numerals.Valid() && raw != [] && (raw[0] == BYTE_ORDER_MARK || White(raw[0]))
    ensures ParseCanonical(numerals, raw).None?
  {
    AcceptsExactlyPrinted(numerals, raw);
    forall v | WellFormed(numerals, v) && CanonicalJson(v) == Some(raw) ensures false {
      PrintIsSortedStringify(v);
      NormWellFormed(numerals, v);
      NotByteOrderMark(numerals, Norm(v));
      StringifyStarts(numerals, Norm(v));
    }
  }

  lemma SameBody(open: nat, a: Text, b: Text, close: nat)
    requires [open] + a + [close] == [open] + b + [close]
    ensures a == b
  {
    assert a == ([open] + a + [close])[1..|a| + 1];
    assert b == ([open] + b + [close])[1..|b| + 1];
  }

  lemma SameMembersText(numerals: Numerals, a: seq<Member>, b: seq<Member>)
    requires a != [] && b != [] && WellFormedMembers(numerals, a) && WellFormedMembers(numerals, b)
    requires Stringify(Object(a)) == Stringify(Object(b))
    ensures a == b
  {
    SameBody(OPEN_OBJECT, Join(StringifyMembers(a)), Join(StringifyMembers(b)), CLOSE_OBJECT);
    MembersRoundTrip(numerals, a, []);
    MembersRoundTrip(numerals, b, []);
  }

  lemma SortedMembersWellFormed(numerals: Numerals, members: seq<Member>)
    requires WellFormedMembers(numerals, members)
    ensures WellFormedMembers(numerals, Sort(KeyOfMember(), NormMembers(members)))
    ensures Distinct(Map(Keys(), Sort(KeyOfMember(), NormMembers(members)))) <==> Distinct(Map(Keys(), members))
    ensures |Sort(KeyOfMember(), NormMembers(members))| == |members|
  {
    var normed := NormMembers(members);
    var sorted := Sort(KeyOfMember(), normed);
    NormMembersWellFormed(numerals, members);
    SortMembers(KeyOfMember(), normed);
    WellFormedMembersEach(numerals, normed);
    WellFormedMembersEach(numerals, sorted);
    NormKeys(members);
    SortPermutes(KeyOfMember(), normed);
    MapPermutes(Keys(), normed, sorted);
    if Distinct(Map(Keys(), members)) { DistinctPermutes(Map(Keys(), normed), Map(Keys(), sorted)); }
    if Distinct(Map(Keys(), sorted)) { DistinctPermutes(Map(Keys(), sorted), Map(Keys(), normed)); }
  }

  /** A text that gives a key twice is refused even when it is sorted and free of white space. */
  lemma RefusesRepeatedKeys(numerals: Numerals, members: seq<Member>)
    requires numerals.Valid() && WellFormedMembers(numerals, members)
    requires ParseCanonical(numerals, Print(Object(members))).Some?
    ensures Distinct(Map(Keys(), members))
  {
    var raw := Print(Object(members));
    PrintIsSortedStringify(Object(members));
    AcceptsExactlyPrinted(numerals, raw);
    var w :| WellFormed(numerals, w) && CanonicalJson(w) == Some(raw);
    PrintIsSortedStringify(w);
    NormWellFormed(numerals, w);
    ObjectText(numerals, Norm(w));
    SortedMembersWellFormed(numerals, members);
    SortedMembersWellFormed(numerals, w.members);
    var a, b := Sort(KeyOfMember(), NormMembers(members)), Sort(KeyOfMember(), NormMembers(w.members));
    if members != [] {
      if w.members == [] { EmptyObjectText(a); }
      SameMembersText(numerals, a, b);
    }
  }

  /** Only an object prints with a leading brace. */
  lemma ObjectText(numerals: Numerals, v: Json)
    requires WellFormed(numerals, v) && Stringify(v) != [] && Stringify(v)[0] == OPEN_OBJECT
    ensures v.Object?
  {
    if v.Number? { NumberStarts(v.token); }
  }

  lemma EmptyObjectText(a: seq<Member>)
    requires a != []
    ensures Stringify(Object(a)) != Stringify(Object([]))
  {
    JoinStarts(StringifyMembers(a), [CLOSE_OBJECT]);
    assert Stringify(Object(a)) == [OPEN_OBJECT] + (Join(StringifyMembers(a)) + [CLOSE_OBJECT]);
    assert Stringify(Object(a))[1] != CLOSE_OBJECT;
  }
}
