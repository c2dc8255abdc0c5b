/**
 * The frame of an event is one data line: it holds no line break and stays
 * within the line bound, whatever the event holds.
 */
module AskFraming {
  import opened Wrappers
  import opened Sequences
  import opened Sorting
  import opened Json
  import opened JsonRoundTrip
  import opened JsonCanonical
  import opened Utf8
  import opened AskEvents

  // ---------------------------------------------------------------- no control characters

  predicate Printable(s: Text) { forall i :: 0 <= i < |s| ==> s[i] >= 0x20 }

  lemma {:induction false} EscapePrintable(s: Text)
    ensures Printable(Escape(s))
    decreases |s|
  {
    if s != [] {
      EscapePrintable(s[StepLength(s)..]);
      EscapeSteps(s);
    }
  }

  lemma {:induction false} DigitsPrintable(s: Text)
    ensures Printable(s[..DigitCount(s)])
  {
    if s != [] && Digit(s[0]) {
      DigitsPrintable(s[1..]);
      assert s[..DigitCount(s)] == [s[0]] + s[1..][..DigitCount(s[1..])];
    }
  }

  lemma WholePrintable(s: Text)
    ensures Printable(s[..WholeLength(s)])
  {
    DigitsPrintable(s);
  }

  lemma FractionPrintable(s: Text)
    requires FractionLength(s).Some?
    ensures Printable(s[..FractionLength(s).value])
  {
    if s != [] && s[0] == 0x2e {
      DigitsPrintable(s[1..]);
      assert s[..FractionLength(s).value] == [s[0]] + s[1..][..DigitCount(s[1..])];
    }
  }

  lemma ExponentPrintable(s: Text)
    requires ExponentLength(s).Some?
    ensures Printable(s[..ExponentLength(s).value])
  {
    if s != [] && (s[0] == 0x65 || s[0] == 0x45) {
      var sign := if |s| >= 2 && (s[1] == 0x2b || s[1] == 0x2d) then 1 else 0;
      DigitsPrintable(s[1 + sign..]);
      assert s[..ExponentLength(s).value] == s[..1 + sign] + s[1 + sign..][..DigitCount(s[1 + sign..])];
    }
  }

  lemma TailPrintable(s: Text)
    requires TailLength(s).Some?
    ensures Printable(s[..TailLength(s).value])
  {
    var f := FractionLength(s).value;
    FractionPrintable(s);
    ExponentPrintable(s[f..]);
    assert s[..TailLength(s).value] == s[..f] + s[f..][..ExponentLength(s[f..]).value];
  }

  lemma ThreeParts(t: Text, i: nat, j: nat)
    requires i <= j <= |t| && Printable(t[..i]) && Printable(t[i..][..j - i]) && Printable(t[j..])
    ensures Printable(t)
  {
    forall k | 0 <= k < |t| ensures t[k] >= 0x20 {
      if k < i {
        assert t[..i][k] == t[k];
      } else if k < j {
        assert t[i..][..j - i][k - i] == t[k];
      } else {
        assert t[j..][k - j] == t[k];
      }
    }
  }

  lemma NumberPrintable(t: Text)
    requires IsNumber(t)
    ensures Printable(t)
  {
    var sign := SignLength(t);
    var whole := WholeLength(t[sign..]);
    WholePrintable(t[sign..]);
    TailPrintable(t[sign + whole..]);
    assert t[sign + whole..][..TailLength(t[sign + whole..]).value] == t[sign + whole..];
    ThreeParts(t, sign, sign + whole);
  }

  predicate AllPrintable(texts: seq<Text>) { forall i :: 0 <= i < |texts| ==> Printable(texts[i]) }

  lemma {:induction false} JoinPrintable(texts: seq<Text>)
    requires AllPrintable(texts)
    ensures Printable(Join(texts))
  {
    if |texts| > 1 { JoinPrintable(texts[1..]); }
  }

  /** JSON.stringify prints no line break and no other control character. */
  lemma {:induction false} StringifyPrintable(numerals: Numerals, v: Json)
    requires WellFormed(numerals, v)
    ensures Printable(Stringify(v))
    decreases v, 1
  {
    match v
    case Number(token) => NumberPrintable(token);
    case String(s) => EscapePrintable(s);
    case Array(items) =>
      StringifyAllPrintable(numerals, items);
      JoinPrintable(StringifyAll(items));
    case Object(members) =>
      StringifyMembersPrintable(numerals, members);
      JoinPrintable(StringifyMembers(members));
    case _ =>
  }

  lemma {:induction false} StringifyAllPrintable(numerals: Numerals, items: seq<Json>)
    requires WellFormedAll(numerals, items)
    ensures AllPrintable(StringifyAll(items))
    decreases items, 0
  {
    if items != [] {
      StringifyPrintable(numerals, items[0]);
      StringifyAllPrintable(numerals, items[1..]);
    }
  }

  lemma {:induction false} StringifyMembersPrintable(numerals: Numerals, members: seq<Member>)
    requires WellFormedMembers(numerals, members)
    ensures AllPrintable(StringifyMembers(members))
    decreases members, 0
  {
    if members != [] {
      EscapePrintable(members[0].key);
      StringifyPrintable(numerals, members[0].value);
      StringifyMembersPrintable(numerals, members[1..]);
    }
  }

  // ---------------------------------------------------------------- length

  function LengthOf(): Text -> int { (t: Text) => |t| }
  function MemberLength(): Member -> int { (m: Member) => |Quote(m.key)| + 1 + |Stringify(m.value)| }

  lemma {:induction false} JoinLength(texts: seq<Text>)
    ensures |Join(texts)| == Sum(LengthOf(), texts) + if texts == [] then 0 else |texts| - 1
  {
    if |texts| == 1 {
      assert texts[1..] == [];
      assert Sum(LengthOf(), texts[1..]) == 0;
    } else if texts != [] {
      JoinLength(texts[1..]);
    }
  }

  lemma {:induction false} MembersLength(members: seq<Member>)
    ensures Sum(LengthOf(), StringifyMembers(members)) == Sum(MemberLength(), members)
  {
    if members != [] {
      MembersLength(members[1..]);
      assert StringifyMembers(members)[1..] == StringifyMembers(members[1..]);
    }
  }

  /** Sorting the members of a value does not change how long its text is. */
  lemma {:induction false} NormLength(v: Json)
    ensures |Stringify(Norm(v))| == |Stringify(v)|
    decreases v, 1
  {
    match v
    case Array(items) =>
      NormAllLength(items);
      JoinLength(StringifyAll(items));
      JoinLength(StringifyAll(NormAll(items)));
    case Object(members) =>
      var normed := NormMembers(members);
      var sorted := Sort(KeyOfMember(), normed);
      NormMembersLength(members);
      SortPermutes(KeyOfMember(), normed);
      SumPermutes(MemberLength(), normed, sorted);
      JoinLength(StringifyMembers(members));
      JoinLength(StringifyMembers(sorted));
      MembersLength(members);
      MembersLength(sorted);
    case _ =>
  }

  lemma {:induction false} NormAllLength(items: seq<Json>)
    ensures Sum(LengthOf(), StringifyAll(NormAll(items))) == Sum(LengthOf(), StringifyAll(items))
    decreases items, 0
  {
    if items != [] {
      NormLength(items[0]);
      NormAllLength(items[1..]);
      assert NormAll(items)[1..] == NormAll(items[1..]);
      assert StringifyAll(items)[1..] == StringifyAll(items[1..]);
      assert StringifyAll(NormAll(items))[1..] == StringifyAll(NormAll(items[1..]));
    }
  }

  lemma {:induction false} NormMembersLength(members: seq<Member>)
    ensures Sum(MemberLength(), NormMembers(members)) == Sum(MemberLength(), members)
    decreases members, 0
  {
    if members != [] {
      NormLength(members[0].value);
      NormMembersLength(members[1..]);
      assert NormMembers(members)[1..] == NormMembers(members[1..]);
    }
  }

  lemma {:induction false} EscapeLength(s: Text)
    ensures |Escape(s)| <= 6 * |s|
    decreases |s|
  {
    if s != [] {
      EscapeLength(s[StepLength(s)..]);
      EscapeSteps(s);
    }
  }

  lemma BoundedFits(v: Json)
    requires Bounded(v).Some?
    ensures |Stringify(v)| <= EVENT_MAX_BYTES
  {
    PrintIsSortedStringify(v);
    NormLength(v);
    UnitsWithinBytes(Print(v));
  }

  /** An error event has no byte bound of its own, but its strings are bounded. */
  lemma ErrorFits(status: Text, code: Text, message: Text)
    requires |status| == 3 && |code| <= ERROR_CODE_MAX && |message| <= ERROR_MESSAGE_MAX
    ensures |Stringify(ErrorEvent(status, ErrorBody(code, message)))| <= EVENT_MAX_BYTES
  {
    EscapeLength(code);
    EscapeLength(message);
    ObjectOfTwo(Member(CODE, String(code)), Member(MESSAGE, String(message)));
    ObjectOfThree(Member(TYPE, String(ERROR)), Member(STATUS, Number(status)), Member(ERROR, ErrorBody(code, message)));
    EscapeLength(CODE);
    EscapeLength(MESSAGE);
    EscapeLength(TYPE);
    EscapeLength(STATUS);
    EscapeLength(ERROR);
  }

  lemma ObjectOfTwo(a: Member, b: Member)
    ensures |Stringify(Object([a, b]))| == 3 + MemberLength()(a) + MemberLength()(b)
  {
    var members := [a, b];
    JoinLength(StringifyMembers(members));
    MembersLength(members);
    assert members[1..] == [b] && [b][1..] == [];
    assert Sum(MemberLength(), [b][1..]) == 0;
  }

  lemma ObjectOfThree(a: Member, b: Member, c: Member)
    ensures |Stringify(Object([a, b, c]))| == 4 + MemberLength()(a) + MemberLength()(b) + MemberLength()(c)
  {
    var members := [a, b, c];
    JoinLength(StringifyMembers(members));
    MembersLength(members);
    assert members[1..] == [b, c] && [b, c][1..] == [c] && [c][1..] == [];
    assert Sum(MemberLength(), [c][1..]) == 0;
    assert Sum(MemberLength(), [c]) == MemberLength()(c);
  }

  lemma DataLine(text: Text)
    requires Printable(text) && |text| <= EVENT_MAX_BYTES
    ensures Printable(DATA + text) && |DATA + text| <= LINE_MAX_UNITS
  {
  }

  lemma EventFits(vs: Validators, v: Json)
    requires vs.Valid() && StreamEvent(vs, v).Some?
    ensures |Stringify(StreamEvent(vs, v).value)| <= EVENT_MAX_BYTES
  {
    if IsError(v) {
      ErrorEventFits(vs, v);
    } else {
      StreamEventWellFormed(vs, v);
      BoundedFits(StreamEvent(vs, v).value);
    }
  }

  lemma ErrorEventFits(vs: Validators, v: Json)
    requires vs.Valid() && IsError(v) && StreamEvent(vs, v).Some?
    ensures |Stringify(StreamEvent(vs, v).value)| <= EVENT_MAX_BYTES
  {
    var status, body := FieldOf(v, STATUS).token, FieldOf(v, ERROR);
    StatusIsNumber(status);
    ErrorFits(status, FieldOf(body, CODE).s, FieldOf(body, MESSAGE).s);
  }

  /**
   * Every event that can be sent prints as one line without breaks, and that
   * line stays under the bound on what the decoder buffers.
   */
  lemma EventLine(vs: Validators, v: Json)
    requires vs.Valid() && StreamEvent(vs, v).Some?
    ensures Printable(DATA + Stringify(StreamEvent(vs, v).value))
    ensures |DATA + Stringify(StreamEvent(vs, v).value)| <= LINE_MAX_UNITS
  {
    StreamEventWellFormed(vs, v);
    StringifyPrintable(vs.numerals, StreamEvent(vs, v).value);
    EventFits(vs, v);
    DataLine(Stringify(StreamEvent(vs, v).value));
  }
}
