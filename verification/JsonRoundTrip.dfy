/**
 * Printing and parsing undo each other: strings, numbers, then whole values,
 * each before any text that may follow it.
 */
module JsonRoundTrip {
  import opened Wrappers
  import opened Sequences
  import opened Json
  import opened JsonParser

  // ---------------------------------------------------------------- strings

  lemma HexDigitValue(d: nat)
    requires d < 16
    ensures HexValue(HexDigit(d)) == Some(d)
  {
  }

  lemma HexRoundTrip(c: nat, rest: Text)
    requires c < 0x10000
    ensures HexFour(UnicodeEscape(c)[2..] + rest) == Some(c)
  {
    var t := UnicodeEscape(c)[2..] + rest;
    var c1, c2, c3 := c / 16, c / 16 / 16, c / 16 / 16 / 16;
    assert c == 16 * c1 + c % 16 && c1 == 16 * c2 + c1 % 16 && c2 == 16 * c3 + c2 % 16 && c3 < 16;
    assert t[0] == HexDigit(c3 % 16) && t[1] == HexDigit(c2 % 16) && t[2] == HexDigit(c1 % 16) && t[3] == HexDigit(c % 16);
    HexDigitValue(c3 % 16);
    HexDigitValue(c2 % 16);
    HexDigitValue(c1 % 16);
    HexDigitValue(c % 16);
  }

  lemma UnicodeEscapeParses(c: nat, rest: Text)
    requires c < 0x10000
    ensures ParseChars(UnicodeEscape(c) + rest) == Prepend(c, ParseChars(rest))
  {
    var s := UnicodeEscape(c) + rest;
    HexRoundTrip(c, rest);
    assert s[2..] == UnicodeEscape(c)[2..] + rest;
    assert s[6..] == rest;
  }

  lemma ShortEscapeParses(e: nat, rest: Text)
    requires SimpleEscape(e).Some?
    ensures ParseChars([BACKSLASH, e] + rest) == Prepend(SimpleEscape(e).value, ParseChars(rest))
  {
    assert ([BACKSLASH, e] + rest)[2..] == rest;
  }

  lemma EscapeUnitParses(c: nat, rest: Text)
    requires !High(c) && !Low(c)
    ensures ParseChars(EscapeUnit(c) + rest) == Prepend(c, ParseChars(rest))
  {
    if |EscapeUnit(c)| == 2 {
      var e := EscapeUnit(c)[1];
      assert EscapeUnit(c) == [BACKSLASH, e];
      ShortEscapeParses(e, rest);
    } else if c < 0x20 {
      UnicodeEscapeParses(c, rest);
    } else {
      RawParses(c, rest);
    }
  }

  lemma RawParses(c: nat, rest: Text)
    requires c >= 0x20 && c != QUOTE && c != BACKSLASH
    ensures ParseChars([c] + rest) == Prepend(c, ParseChars(rest))
  {
    assert ([c] + rest)[1..] == rest;
  }

  /** How many code units one step of `Escape` takes. */
  function StepLength(s: Text): nat
    requires s != []
  {
    if High(s[0]) && |s| >= 2 && Low(s[1]) then 2 else 1
  }

  function Step(s: Text): Text
    requires s != []
  {
    if High(s[0]) && |s| >= 2 && Low(s[1]) then [s[0], s[1]]
    else if High(s[0]) || Low(s[0]) then UnicodeEscape(s[0])
    else EscapeUnit(s[0])
  }

  lemma EscapeSteps(s: Text)
    requires s != []
    ensures Escape(s) == Step(s) + Escape(s[StepLength(s)..])
    ensures s == s[..StepLength(s)] + s[StepLength(s)..]
  {
  }

  function PrependAll(t: Text, p: Parsed<Text>): Parsed<Text> {
    if p.Bad? then Bad else Good(t + p.value, p.rest)
  }

  lemma StepParses(s: Text, rest: Text)
    requires s != []
    ensures ParseChars(Step(s) + rest) == PrependAll(s[..StepLength(s)], ParseChars(rest))
  {
    if High(s[0]) && |s| >= 2 && Low(s[1]) {
      RawParses(s[1], rest);
      RawParses(s[0], [s[1]] + rest);
      assert Step(s) + rest == [s[0]] + ([s[1]] + rest);
      var p := ParseChars(rest);
      if p.Good? { assert s[..2] + p.value == [s[0]] + ([s[1]] + p.value); }
    } else if High(s[0]) || Low(s[0]) {
      UnicodeEscapeParses(s[0], rest);
      assert s[..1] == [s[0]];
    } else {
      EscapeUnitParses(s[0], rest);
      assert s[..1] == [s[0]];
    }
  }

  lemma Associative(a: Text, b: Text, c: Text)
    ensures (a + b) + c == a + (b + c)
  {
  }

  /** A printed string reads back as itself, whatever follows it. */
  lemma {:induction false} StringRoundTrip(s: Text, rest: Text)
    ensures ParseChars(Escape(s) + ([QUOTE] + rest)) == Good(s, rest)
    decreases |s|
  {
    var end := [QUOTE] + rest;
    if s == [] {
      assert Escape(s) + end == end;
      assert end[1..] == rest;
    } else {
      var tail := s[StepLength(s)..];
      EscapeSteps(s);
      StringRoundTrip(tail, rest);
      StepParses(s, Escape(tail) + end);
      Associative(Step(s), Escape(tail), end);
    }
  }

  // ---------------------------------------------------------------- numbers

  /** What may follow a number: nothing that could continue it. */
  predicate Boundary(rest: Text) {
    rest == [] || (!Digit(rest[0]) && rest[0] != 0x2e && rest[0] != 0x65 && rest[0] != 0x45)
  }

  lemma {:induction false} DigitCountExtends(t: Text, rest: Text)
    requires DigitCount(t) < |t| || rest == [] || !Digit(rest[0])
    ensures DigitCount(t + rest) == DigitCount(t)
  {
    if t == [] {
      assert t + rest == rest;
    } else if Digit(t[0]) {
      assert (t + rest)[1..] == t[1..] + rest;
      DigitCountExtends(t[1..], rest);
    }
  }

  lemma {:induction false} FractionExtends(t: Text, rest: Text)
    requires Boundary(rest) && FractionLength(t).Some?
    ensures FractionLength(t + rest) == FractionLength(t)
  {
    if t == [] {
      assert t + rest == rest;
    } else if t[0] == 0x2e {
      assert (t + rest)[1..] == t[1..] + rest;
      DigitCountExtends(t[1..], rest);
    }
  }

  lemma {:induction false} ExponentExtends(t: Text, rest: Text)
    requires Boundary(rest) && ExponentLength(t).Some?
    ensures ExponentLength(t + rest) == ExponentLength(t)
  {
    if t == [] {
      assert t + rest == rest;
    } else if t[0] == 0x65 || t[0] == 0x45 {
      assert |t| >= 2;
      var sign := if t[1] == 0x2b || t[1] == 0x2d then 1 else 0;
      assert (t + rest)[1 + sign..] == t[1 + sign..] + rest;
      DigitCountExtends(t[1 + sign..], rest);
    }
  }

  lemma WholeExtends(t: Text, rest: Text)
    requires Boundary(rest) && t != []
    ensures WholeLength(t + rest) == WholeLength(t)
  {
    if t[0] != 0x30 { DigitCountExtends(t, rest); }
  }

  lemma DropAppend(t: Text, rest: Text, n: nat)
    requires n <= |t|
    ensures (t + rest)[n..] == t[n..] + rest
  {
  }

  lemma TailExtends(t: Text, rest: Text)
    requires Boundary(rest) && TailLength(t).Some?
    ensures TailLength(t + rest) == TailLength(t)
  {
    FractionExtends(t, rest);
    var n := FractionLength(t).value;
    DropAppend(t, rest, n);
    ExponentExtends(t[n..], rest);
  }

  lemma NumberParts(t: Text, sign: nat, whole: nat, tail: nat)
    requires SignLength(t) == sign && 0 < whole && sign + whole + tail <= |t|
    requires WholeLength(t[sign..]) == whole && TailLength(t[sign + whole..]) == Some(tail)
    ensures NumberLength(t) == sign + whole + tail
  {
  }

  lemma NumberExtendsParts(t: Text, rest: Text, sign: nat, whole: nat, tail: nat)
    requires t != [] && Boundary(rest) && SignLength(t) == sign && 0 < whole && sign + whole + tail == |t|
    requires WholeLength(t[sign..]) == whole && TailLength(t[sign + whole..]) == Some(tail)
    ensures NumberLength(t + rest) == |t|
  {
    assert WholeLength((t + rest)[sign..]) == whole by {
      DropAppend(t, rest, sign);
      WholeExtends(t[sign..], rest);
    }
    assert TailLength((t + rest)[sign + whole..]) == Some(tail) by {
      DropAppend(t, rest, sign + whole);
      TailExtends(t[sign + whole..], rest);
    }
    NumberParts(t + rest, sign, whole, tail);
  }

  lemma NumberExtends(t: Text, rest: Text)
    requires IsNumber(t) && Boundary(rest)
    ensures NumberLength(t + rest) == |t|
  {
    var sign := SignLength(t);
    var whole := WholeLength(t[sign..]);
    NumberExtendsParts(t, rest, sign, whole, TailLength(t[sign + whole..]).value);
  }

  /** A number starts with a minus sign or a digit, so no other kind of value. */
  lemma NumberStarts(t: Text)
    requires IsNumber(t)
    ensures t[0] == 0x2d || Digit(t[0])
  {
    if t[0] != 0x2d { assert t[SignLength(t)..] == t; }
  }

  lemma TakeAppend(t: Text, rest: Text)
    ensures (t + rest)[..|t|] == t && (t + rest)[|t|..] == rest
  {
  }

  lemma ReadNumber(numerals: Numerals, s: Text, n: nat)
    requires 0 < n == NumberLength(s) && (s[0] == 0x2d || Digit(s[0]))
    ensures ParseValue(numerals, s) == ParseNumber(numerals, s)
  {
    assert SkipWhite(s) == s;
  }

  lemma NumberRoundTrip(numerals: Numerals, t: Text, rest: Text)
    requires IsNumber(t) && numerals.normal(t) == Some(t) && Boundary(rest)
    ensures ParseValue(numerals, t + rest) == Good(Number(t), rest)
  {
    NumberStarts(t);
    NumberExtends(t, rest);
    assert (t + rest)[0] == t[0];
    ReadNumber(numerals, t + rest, |t|);
    TakeAppend(t, rest);
  }

  // ---------------------------------------------------------------- values

  /** A printed value starts with neither white space nor a closing bracket. */
  predicate Starts(s: Text) {
    s != [] && !White(s[0]) && s[0] != CLOSE_ARRAY && s[0] != CLOSE_OBJECT
  }

  lemma StringifyStarts(numerals: Numerals, v: Json)
    requires WellFormed(numerals, v)
    ensures Starts(Stringify(v))
  {
    if v.Number? { NumberStarts(v.token); }
  }

  lemma SkipNothing(s: Text)
    requires s == [] || !White(s[0])
    ensures SkipWhite(s) == s
  {
  }

  lemma JoinFirst(texts: seq<Text>, rest: Text)
    requires texts != []
    ensures |texts| == 1 ==> Join(texts) + rest == texts[0] + rest
    ensures |texts| > 1 ==> Join(texts) + rest == texts[0] + ([COMMA] + (Join(texts[1..]) + rest))
  {
    if |texts| > 1 { SplitText(texts[0], [COMMA], Join(texts[1..]), rest); }
  }

  lemma SplitText(a: Text, b: Text, c: Text, d: Text)
    ensures (a + b + c) + d == a + (b + (c + d))
  {
  }

  lemma JoinStarts(texts: seq<Text>, rest: Text)
    requires texts != [] && Starts(texts[0])
    ensures Starts(Join(texts) + rest) && (Join(texts) + rest)[0] == texts[0][0]
  {
    JoinFirst(texts, rest);
  }

  // One step of the parser each.

  lemma LastItem(numerals: Numerals, s: Text, v: Json, rest: Text)
    requires ParseValue(numerals, s) == Good(v, [CLOSE_ARRAY] + rest)
    ensures ParseItems(numerals, s) == Good([v], rest)
  {
    SkipNothing([CLOSE_ARRAY] + rest);
    assert ([CLOSE_ARRAY] + rest)[1..] == rest;
  }

  lemma NextItem(numerals: Numerals, s: Text, v: Json, after: Text, more: seq<Json>, rest: Text)
    requires ParseValue(numerals, s) == Good(v, [COMMA] + after) && ParseItems(numerals, after) == Good(more, rest)
    ensures ParseItems(numerals, s) == Good([v] + more, rest)
  {
    SkipNothing([COMMA] + after);
    assert ([COMMA] + after)[1..] == after;
  }

  lemma LastMember(numerals: Numerals, s: Text, m: Member, rest: Text)
    requires ParseMember(numerals, s) == Good(m, [CLOSE_OBJECT] + rest)
    ensures ParseMembers(numerals, s) == Good([m], rest)
  {
    SkipNothing([CLOSE_OBJECT] + rest);
    assert ([CLOSE_OBJECT] + rest)[1..] == rest;
  }

  lemma NextMember(numerals: Numerals, s: Text, m: Member, after: Text, more: seq<Member>, rest: Text)
    requires ParseMember(numerals, s) == Good(m, [COMMA] + after) && ParseMembers(numerals, after) == Good(more, rest)
    ensures ParseMembers(numerals, s) == Good([m] + more, rest)
  {
    SkipNothing([COMMA] + after);
    assert ([COMMA] + after)[1..] == after;
  }

  lemma ReadKey(numerals: Numerals, key: Text, v: Json, text: Text, rest: Text)
    requires ParseValue(numerals, text) == Good(v, rest)
    ensures ParseMember(numerals, [QUOTE] + (Escape(key) + ([QUOTE] + ([COLON] + text)))) == Good(Member(key, v), rest)
  {
    var after := [COLON] + text;
    var s := [QUOTE] + (Escape(key) + ([QUOTE] + after));
    SkipNothing(s);
    assert s[1..] == Escape(key) + ([QUOTE] + after);
    StringRoundTrip(key, after);
    SkipNothing(after);
    assert after[1..] == text;
  }

  lemma ReadArray(numerals: Numerals, inner: Text, items: seq<Json>, rest: Text)
    requires Starts(inner) && ParseItems(numerals, inner) == Good(items, rest)
    ensures ParseValue(numerals, [OPEN_ARRAY] + inner) == Good(Array(items), rest)
  {
    var s := [OPEN_ARRAY] + inner;
    SkipNothing(s);
    assert s[1..] == inner;
    SkipNothing(inner);
  }

  lemma ReadEmpty(numerals: Numerals, rest: Text)
    ensures ParseValue(numerals, [OPEN_ARRAY] + ([CLOSE_ARRAY] + rest)) == Good(Array([]), rest)
    ensures ParseValue(numerals, [OPEN_OBJECT] + ([CLOSE_OBJECT] + rest)) == Good(Object([]), rest)
  {
    var a, o := [CLOSE_ARRAY] + rest, [CLOSE_OBJECT] + rest;
    SkipNothing(a);
    SkipNothing(o);
    SkipNothing([OPEN_ARRAY] + a);
    SkipNothing([OPEN_OBJECT] + o);
    assert ([OPEN_ARRAY] + a)[1..] == a && ([OPEN_OBJECT] + o)[1..] == o;
    assert a[1..] == rest && o[1..] == rest;
  }

  lemma ReadObject(numerals: Numerals, inner: Text, members: seq<Member>, rest: Text)
    requires Starts(inner) && ParseMembers(numerals, inner) == Good(members, rest)
    requires Distinct(Map(Keys(), members))
    ensures ParseValue(numerals, [OPEN_OBJECT] + inner) == Good(Object(members), rest)
  {
    var s := [OPEN_OBJECT] + inner;
    SkipNothing(s);
    assert s[1..] == inner;
    SkipNothing(inner);
    assert [] + members == members;
    SetAllDistinct([], members);
  }

  lemma ReadLiteral(numerals: Numerals, rest: Text)
    ensures ParseValue(numerals, NULL_TEXT + rest) == Good(Null, rest)
    ensures ParseValue(numerals, TRUE_TEXT + rest) == Good(Bool(true), rest)
    ensures ParseValue(numerals, FALSE_TEXT + rest) == Good(Bool(false), rest)
  {
    SkipNothing(NULL_TEXT + rest);
    SkipNothing(TRUE_TEXT + rest);
    SkipNothing(FALSE_TEXT + rest);
    DropAppend(NULL_TEXT, rest, 4);
    DropAppend(TRUE_TEXT, rest, 4);
    DropAppend(FALSE_TEXT, rest, 5);
  }

  lemma ReadString(numerals: Numerals, s: Text, rest: Text)
    ensures ParseValue(numerals, Quote(s) + rest) == Good(String(s), rest)
  {
    var inner := Escape(s) + ([QUOTE] + rest);
    assert Quote(s) + rest == [QUOTE] + inner;
    SkipNothing([QUOTE] + inner);
    assert ([QUOTE] + inner)[1..] == inner;
    StringRoundTrip(s, rest);
  }

  /** What JSON.stringify prints reads back as the same value, whatever may follow a number follows it. */
  lemma {:induction false} ValueRoundTrip(numerals: Numerals, v: Json, rest: Text)
    requires WellFormed(numerals, v) && Boundary(rest)
    ensures ParseValue(numerals, Stringify(v) + rest) == Good(v, rest)
    decreases v, 1
  {
    match v
    case Null => ReadLiteral(numerals, rest);
    case Bool(b) => ReadLiteral(numerals, rest);
    case Number(token) => NumberRoundTrip(numerals, token, rest);
    case String(text) => ReadString(numerals, text, rest);
    case Array(items) => ArrayRoundTrip(numerals, items, rest);
    case Object(members) => ObjectRoundTrip(numerals, members, rest);
  }

  lemma {:induction false} ArrayRoundTrip(numerals: Numerals, items: seq<Json>, rest: Text)
    requires WellFormedAll(numerals, items)
    ensures ParseValue(numerals, Stringify(Array(items)) + rest) == Good(Array(items), rest)
    decreases items, 1
  {
    var body := Join(StringifyAll(items));
    var inner := body + ([CLOSE_ARRAY] + rest);
    assert Stringify(Array(items)) + rest == [OPEN_ARRAY] + inner;
    if items == [] {
      assert inner == [CLOSE_ARRAY] + rest;
      ReadEmpty(numerals, rest);
    } else {
      StringifyStarts(numerals, items[0]);
      JoinStarts(StringifyAll(items), [CLOSE_ARRAY] + rest);
      ItemsRoundTrip(numerals, items, rest);
      ReadArray(numerals, inner, items, rest);
    }
  }

  lemma {:induction false} ItemsRoundTrip(numerals: Numerals, items: seq<Json>, rest: Text)
    requires items != [] && WellFormedAll(numerals, items)
    ensures ParseItems(numerals, Join(StringifyAll(items)) + ([CLOSE_ARRAY] + rest)) == Good(items, rest)
    decreases items, 0
  {
    var texts, end := StringifyAll(items), [CLOSE_ARRAY] + rest;
    JoinFirst(texts, end);
    if |items| == 1 {
      assert items == [items[0]];
      ValueRoundTrip(numerals, items[0], end);
      LastItem(numerals, Join(texts) + end, items[0], rest);
    } else {
      var after := Join(texts[1..]) + end;
      assert items == [items[0]] + items[1..] && texts[1..] == StringifyAll(items[1..]);
      ValueRoundTrip(numerals, items[0], [COMMA] + after);
      ItemsRoundTrip(numerals, items[1..], rest);
      NextItem(numerals, Join(texts) + end, items[0], after, items[1..], rest);
    }
  }

  lemma {:induction false} ObjectRoundTrip(numerals: Numerals, members: seq<Member>, rest: Text)
    requires Distinct(Map(Keys(), members)) && WellFormedMembers(numerals, members)
    ensures ParseValue(numerals, Stringify(Object(members)) + rest) == Good(Object(members), rest)
    decreases members, 1
  {
    var body := Join(StringifyMembers(members));
    var inner := body + ([CLOSE_OBJECT] + rest);
    assert Stringify(Object(members)) + rest == [OPEN_OBJECT] + inner;
    if members == [] {
      assert inner == [CLOSE_OBJECT] + rest;
      ReadEmpty(numerals, rest);
    } else {
      JoinStarts(StringifyMembers(members), [CLOSE_OBJECT] + rest);
      MembersRoundTrip(numerals, members, rest);
      ReadObject(numerals, inner, members, rest);
    }
  }

  lemma {:induction false} MemberRoundTrip(numerals: Numerals, m: Member, rest: Text)
    requires WellFormed(numerals, m.value) && Boundary(rest)
    ensures ParseMember(numerals, (Quote(m.key) + [COLON] + Stringify(m.value)) + rest) == Good(m, rest)
    decreases m, 2
  {
    var text := Stringify(m.value) + rest;
    ValueRoundTrip(numerals, m.value, rest);
    ReadKey(numerals, m.key, m.value, text, rest);
    MemberText(Escape(m.key), Stringify(m.value), rest);
  }

  lemma MemberText(key: Text, value: Text, rest: Text)
    ensures (([QUOTE] + key + [QUOTE]) + [COLON] + value) + rest == [QUOTE] + (key + ([QUOTE] + ([COLON] + (value + rest))))
  {
  }

  lemma {:induction false} MembersRoundTrip(numerals: Numerals, members: seq<Member>, rest: Text)
    requires members != [] && WellFormedMembers(numerals, members)
    ensures ParseMembers(numerals, Join(StringifyMembers(members)) + ([CLOSE_OBJECT] + rest)) == Good(members, rest)
    decreases members, 0
  {
    var texts, end := StringifyMembers(members), [CLOSE_OBJECT] + rest;
    JoinFirst(texts, end);
    if |members| == 1 {
      assert members == [members[0]];
      MemberRoundTrip(numerals, members[0], end);
      LastMember(numerals, Join(texts) + end, members[0], rest);
    } else {
      var after := Join(texts[1..]) + end;
      assert members == [members[0]] + members[1..] && texts[1..] == StringifyMembers(members[1..]);
      MemberRoundTrip(numerals, members[0], [COMMA] + after);
      MembersRoundTrip(numerals, members[1..], rest);
      NextMember(numerals, Join(texts) + end, members[0], after, members[1..], rest);
    }
  }

  // ---------------------------------------------------------------- members

  lemma {:induction false} SetMemberNew(members: seq<Member>, m: Member)
    requires forall x :: x in members ==> x.key != m.key
    ensures SetMember(members, m) == members + [m]
  {
    if members != [] {
      SetMemberNew(members[1..], m);
      assert members + [m] == [members[0]] + (members[1..] + [m]);
    }
  }

  lemma KeysApart(members: seq<Member>, m: Member, more: seq<Member>)
    requires Distinct(Map(Keys(), members + ([m] + more)))
    ensures forall x :: x in members ==> x.key != m.key
  {
    var all := members + ([m] + more);
    forall x | x in members ensures x.key != m.key {
      var i :| 0 <= i < |members| && members[i] == x;
      assert all[i] == x && all[|members|] == m;
      assert Map(Keys(), all)[i] != Map(Keys(), all)[|members|];
    }
  }

  /** Members with different keys are kept as they are read. */
  lemma {:induction false} SetAllDistinct(members: seq<Member>, more: seq<Member>)
    requires Distinct(Map(Keys(), members + more))
    ensures SetAll(members, more) == members + more
    decreases |more|
  {
    if more == [] {
      assert members + more == members;
    } else {
      assert more == [more[0]] + more[1..];
      KeysApart(members, more[0], more[1..]);
      SetMemberNew(members, more[0]);
      assert members + more == (members + [more[0]]) + more[1..];
      SetAllDistinct(members + [more[0]], more[1..]);
    }
  }

  // ---------------------------------------------------------------- whole texts

  /** JSON.parse undoes JSON.stringify. */
  lemma StringifyRoundTrip(numerals: Numerals, v: Json)
    requires WellFormed(numerals, v)
    ensures Parse(numerals, Stringify(v)) == Some(v)
  {
    ValueRoundTrip(numerals, v, []);
    assert Stringify(v) + [] == Stringify(v);
  }
}
