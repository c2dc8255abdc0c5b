/** JSON values over UTF-16 code units, and their texts. */
module Json {
  import opened Wrappers
  import opened Sequences
  import opened Sorting

  /** Code units. */
  type Text = seq<nat>

  const QUOTE: nat := 0x22
  const BACKSLASH: nat := 0x5c
  const COMMA: nat := 0x2c
  const COLON: nat := 0x3a
  const OPEN_ARRAY: nat := 0x5b
  const CLOSE_ARRAY: nat := 0x5d
  const OPEN_OBJECT: nat := 0x7b
  const CLOSE_OBJECT: nat := 0x7d
  const NULL_TEXT: Text := [0x6e, 0x75, 0x6c, 0x6c]
  const TRUE_TEXT: Text := [0x74, 0x72, 0x75, 0x65]
  const FALSE_TEXT: Text := [0x66, 0x61, 0x6c, 0x73, 0x65]

  /** A number is the token JSON.stringify prints for it. */
  datatype Json =
    | Null
    | Bool(b: bool)
    | Number(token: Text)
    | String(s: Text)
    | Array(items: seq<Json>)
    | Object(members: seq<Member>)

  datatype Member = Member(key: Text, value: Json)

  // ---------------------------------------------------------------- strings

  predicate High(c: nat) { 0xd800 <= c <= 0xdbff }
  predicate Low(c: nat) { 0xdc00 <= c <= 0xdfff }

  /** No surrogate without its partner. */
  predicate Scalar(s: Text) {
    if s == [] then true
    else if High(s[0]) then |s| >= 2 && Low(s[1]) && Scalar(s[2..])
    else !Low(s[0]) && Scalar(s[1..])
  }

  /** assertUnicodeScalarString: the index loop that skips over each pair. */
  method CheckScalar(s: Text) returns (ok: bool)
    ensures ok <==> Scalar(s)
  {
    var index := 0;
    while index < |s|
      invariant 0 <= index <= |s|
      invariant Scalar(s) <==> Scalar(s[index..])
    {
      var code := s[index];
      if High(code) {
        if index + 1 == |s| || !Low(s[index + 1]) { return false; }
        assert s[index..][2..] == s[index + 2..];
        index := index + 1;
      } else if Low(code) {
        return false;
      }
      if index + 1 < |s| { assert s[index..][1..] == s[index + 1..]; }
      index := index + 1;
    }
    return true;
  }

  function HexDigit(d: nat): nat
    requires d < 16
  {
    if d < 10 then 0x30 + d else 0x57 + d
  }

  /** \uXXXX, in lower case. */
  function UnicodeEscape(c: nat): Text {
    [BACKSLASH, 0x75, HexDigit(c / 16 / 16 / 16 % 16), HexDigit(c / 16 / 16 % 16), HexDigit(c / 16 % 16), HexDigit(c % 16)]
  }

  function EscapeUnit(c: nat): Text {
    if c == 0x08 then [BACKSLASH, 0x62]
    else if c == 0x09 then [BACKSLASH, 0x74]
    else if c == 0x0a then [BACKSLASH, 0x6e]
    else if c == 0x0c then [BACKSLASH, 0x66]
    else if c == 0x0d then [BACKSLASH, 0x72]
    else if c == QUOTE then [BACKSLASH, QUOTE]
    else if c == BACKSLASH then [BACKSLASH, BACKSLASH]
    else if c < 0x20 then UnicodeEscape(c)
    else [c]
  }

  /** Pairs stay as they are; a surrogate without its partner is escaped. */
  function Escape(s: Text): Text {
    if s == [] then []
    else if High(s[0]) && |s| >= 2 && Low(s[1]) then [s[0], s[1]] + Escape(s[2..])
    else if High(s[0]) || Low(s[0]) then UnicodeEscape(s[0]) + Escape(s[1..])
    else EscapeUnit(s[0]) + Escape(s[1..])
  }

  function Quote(s: Text): Text { [QUOTE] + Escape(s) + [QUOTE] }

  // ---------------------------------------------------------------- printing

  datatype Printed = Printed(key: Text, text: Text)

  function KeyOfMember(): Member -> Key { (m: Member) => m.key }
  function KeyOfPrinted(): Printed -> Key { (p: Printed) => p.key }

  function Join(texts: seq<Text>): Text {
    if texts == [] then [] else if |texts| == 1 then texts[0] else texts[0] + [COMMA] + Join(texts[1..])
  }

  function PrintedMember(): Printed -> Text { (p: Printed) => Quote(p.key) + [COLON] + p.text }

  /** The canonical text: members in code unit order of their keys, no white space (RFC 8785, sections 3.2.1 to 3.2.3). */
  function Print(v: Json): Text
    decreases v, 1
  {
    match v
    case Null => NULL_TEXT
    case Bool(b) => if b then TRUE_TEXT else FALSE_TEXT
    case Number(token) => token
    case String(s) => Quote(s)
    case Array(items) => [OPEN_ARRAY] + Join(PrintAll(items)) + [CLOSE_ARRAY]
    case Object(members) =>
      [OPEN_OBJECT] + Join(Map(PrintedMember(), Sort(KeyOfPrinted(), PrintMembers(members)))) + [CLOSE_OBJECT]
  }

  function PrintAll(items: seq<Json>): (r: seq<Text>)
    ensures |r| == |items|
    decreases items, 0
  {
    if items == [] then [] else [Print(items[0])] + PrintAll(items[1..])
  }

  function PrintMembers(members: seq<Member>): (r: seq<Printed>)
    ensures |r| == |members|
    decreases members, 0
  {
    if members == [] then [] else [Printed(members[0].key, Print(members[0].value))] + PrintMembers(members[1..])
  }

  /** JSON.stringify: the same, with members in the order they stand in. */
  function Stringify(v: Json): Text
    decreases v, 1
  {
    match v
    case Null => NULL_TEXT
    case Bool(b) => if b then TRUE_TEXT else FALSE_TEXT
    case Number(token) => token
    case String(s) => Quote(s)
    case Array(items) => [OPEN_ARRAY] + Join(StringifyAll(items)) + [CLOSE_ARRAY]
    case Object(members) => [OPEN_OBJECT] + Join(StringifyMembers(members)) + [CLOSE_OBJECT]
  }

  function StringifyAll(items: seq<Json>): (r: seq<Text>)
    ensures |r| == |items|
    decreases items, 0
  {
    if items == [] then [] else [Stringify(items[0])] + StringifyAll(items[1..])
  }

  function StringifyMembers(members: seq<Member>): (r: seq<Text>)
    ensures |r| == |members|
    decreases members, 0
  {
    if members == [] then []
    else [Quote(members[0].key) + [COLON] + Stringify(members[0].value)] + StringifyMembers(members[1..])
  }

  // ---------------------------------------------------------------- canonicalize

  const MAXIMUM_DEPTH := 128

  /** How deep values nest below this one. */
  function Depth(v: Json): nat
    decreases v, 1
  {
    match v
    case Array(items) => if items == [] then 0 else 1 + DepthAll(items)
    case Object(members) => if members == [] then 0 else 1 + DepthMembers(members)
    case _ => 0
  }

  function Max(a: nat, b: nat): nat { if a < b then b else a }

  function DepthAll(items: seq<Json>): nat
    decreases items, 0
  {
    if items == [] then 0 else Max(Depth(items[0]), DepthAll(items[1..]))
  }

  function DepthMembers(members: seq<Member>): nat
    decreases members, 0
  {
    if members == [] then 0 else Max(Depth(members[0].value), DepthMembers(members[1..]))
  }

  /** Every string and key is a sequence of Unicode scalar values. */
  predicate AllScalar(v: Json)
    decreases v, 1
  {
    match v
    case String(s) => Scalar(s)
    case Array(items) => ScalarAll(items)
    case Object(members) => ScalarMembers(members)
    case _ => true
  }

  predicate ScalarAll(items: seq<Json>)
    decreases items, 0
  {
    items == [] || (AllScalar(items[0]) && ScalarAll(items[1..]))
  }

  predicate ScalarMembers(members: seq<Member>)
    decreases members, 0
  {
    members == [] || (Scalar(members[0].key) && AllScalar(members[0].value) && ScalarMembers(members[1..]))
  }

  /** canonicalJson: refused for nesting over the bound or a string that is not scalar. */
  function CanonicalJson(v: Json): Option<Text> {
    if Depth(v) <= MAXIMUM_DEPTH && AllScalar(v) then Some(Print(v)) else None
  }

  // ---------------------------------------------------------------- meaning

  /** A value up to the order of its keys. */
  datatype Meaning =
    | MNull
    | MBool(b: bool)
    | MNumber(token: Text)
    | MString(s: Text)
    | MArray(items: seq<Meaning>)
    | MObject(members: map<Text, Meaning>)

  function Mean(v: Json): Meaning
    decreases v, 1
  {
    match v
    case Null => MNull
    case Bool(b) => MBool(b)
    case Number(token) => MNumber(token)
    case String(s) => MString(s)
    case Array(items) => MArray(MeanAll(items))
    case Object(members) => MObject(MeanMembers(members))
  }

  function MeanAll(items: seq<Json>): (r: seq<Meaning>)
    ensures |r| == |items|
    decreases items, 0
  {
    if items == [] then [] else [Mean(items[0])] + MeanAll(items[1..])
  }

  /** Earlier members win only where no later one has the same key. */
  function MeanMembers(members: seq<Member>): map<Text, Meaning>
    decreases members, 0
  {
    if members == [] then map[] else map[members[0].key := Mean(members[0].value)] + MeanMembers(members[1..])
  }

  function Keys(): Member -> Text { (m: Member) => m.key }

  /** Numbers are tokens of `numerals`, and no object has a key twice. */
  ghost predicate WellFormed(numerals: Numerals, v: Json)
    decreases v, 1
  {
    match v
    case Number(token) => IsNumber(token) && numerals.normal(token) == Some(token)
    case Array(items) => WellFormedAll(numerals, items)
    case Object(members) => Distinct(Map(Keys(), members)) && WellFormedMembers(numerals, members)
    case _ => true
  }

  ghost predicate WellFormedAll(numerals: Numerals, items: seq<Json>)
    decreases items, 0
  {
    items == [] || (WellFormed(numerals, items[0]) && WellFormedAll(numerals, items[1..]))
  }

  ghost predicate WellFormedMembers(numerals: Numerals, members: seq<Member>)
    decreases members, 0
  {
    members == [] || (WellFormed(numerals, members[0].value) && WellFormedMembers(numerals, members[1..]))
  }

  // ---------------------------------------------------------------- numbers

  /**
   * JSON.stringify(JSON.parse(token)) for each number token: the shortest token
   * of the double it reads as, or nothing where that is not finite.
   */
  datatype Numerals = Numerals(normal: Text -> Option<Text>) {
    ghost predicate Valid() {
      forall t :: IsNumber(t) && normal(t).Some? ==> IsNumber(normal(t).value) && normal(normal(t).value) == normal(t)
    }
  }

  predicate Digit(c: nat) { 0x30 <= c <= 0x39 }

  /** How many digits stand at the front. */
  function DigitCount(s: Text): (n: nat)
    ensures n <= |s|
  {
    if s == [] || !Digit(s[0]) then 0 else 1 + DigitCount(s[1..])
  }

  /** The length of the number at the front, or 0 when there is none (RFC 8259, section 6). */
  function NumberLength(s: Text): (n: nat)
    ensures n <= |s|
  {
    var sign := SignLength(s);
    var whole := WholeLength(s[sign..]);
    if whole == 0 then 0
    else
      var tail := TailLength(s[sign + whole..]);
      if tail.None? then 0 else sign + whole + tail.value
  }

  function SignLength(s: Text): (n: nat)
    ensures n <= |s|
  {
    if s != [] && s[0] == 0x2d then 1 else 0
  }

  /** Fraction and exponent, each of them optional. */
  function TailLength(s: Text): (n: Option<nat>)
    ensures n.Some? ==> n.value <= |s|
  {
    var fraction := FractionLength(s);
    if fraction.None? then None
    else
      var exponent := ExponentLength(s[fraction.value..]);
      if exponent.None? then None else Some(fraction.value + exponent.value)
  }

  function WholeLength(s: Text): (n: nat)
    ensures n <= |s|
  {
    if s != [] && s[0] == 0x30 then 1 else DigitCount(s)
  }

  function FractionLength(s: Text): (n: Option<nat>)
    ensures n.Some? ==> n.value <= |s|
  {
    if s == [] || s[0] != 0x2e then Some(0)
    else if DigitCount(s[1..]) == 0 then None else Some(1 + DigitCount(s[1..]))
  }

  function ExponentLength(s: Text): (n: Option<nat>)
    ensures n.Some? ==> n.value <= |s|
  {
    if s == [] || (s[0] != 0x65 && s[0] != 0x45) then Some(0)
    else
      var sign := if |s| >= 2 && (s[1] == 0x2b || s[1] == 0x2d) then 1 else 0;
      var digits := DigitCount(s[1 + sign..]);
      if digits == 0 then None else Some(1 + sign + digits)
  }

  predicate IsNumber(t: Text) { t != [] && NumberLength(t) == |t| }
}
