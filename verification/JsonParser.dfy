/**
 * JSON.parse (RFC 8259) as a function of the text, and the reader that accepts
 * only canonical texts.
 */
module JsonParser {
  import opened Wrappers
  import opened Json

  datatype Parsed<+T> = Bad | Good(value: T, rest: Text)

  predicate White(c: nat) { c == 0x20 || c == 0x09 || c == 0x0a || c == 0x0d }

  function SkipWhite(s: Text): (r: Text)
    ensures |r| <= |s|
  {
    if s != [] && White(s[0]) then SkipWhite(s[1..]) else s
  }

  // ---------------------------------------------------------------- strings

  function HexValue(c: nat): Option<nat> {
    if Digit(c) then Some(c - 0x30)
    else if 0x61 <= c <= 0x66 then Some(c - 0x57)
    else if 0x41 <= c <= 0x46 then Some(c - 0x37)
    else None
  }

  /** The four hexadecimal digits after \u. */
  function HexFour(s: Text): Option<nat> {
    if |s| < 4 || HexValue(s[0]).None? || HexValue(s[1]).None? || HexValue(s[2]).None? || HexValue(s[3]).None? then None
    else Some(4096 * HexValue(s[0]).value + 256 * HexValue(s[1]).value + 16 * HexValue(s[2]).value + HexValue(s[3]).value)
  }

  function SimpleEscape(c: nat): Option<nat> {
    if c == 0x62 then Some(0x08)
    else if c == 0x74 then Some(0x09)
    else if c == 0x6e then Some(0x0a)
    else if c == 0x66 then Some(0x0c)
    else if c == 0x72 then Some(0x0d)
    else if c == QUOTE || c == BACKSLASH || c == 0x2f then Some(c)
    else None
  }

  function Prepend(c: nat, p: Parsed<Text>): (r: Parsed<Text>)
    ensures r.Good? <==> p.Good?
    ensures r.Good? ==> r.rest == p.rest
  {
    if p.Bad? then Bad else Good([c] + p.value, p.rest)
  }

  /** The rest of a string after its opening quotation mark. */
  function ParseChars(s: Text): (r: Parsed<Text>)
    ensures r.Good? ==> |r.rest| < |s|
  {
    if s == [] then Bad
    else if s[0] == QUOTE then Good([], s[1..])
    else if s[0] == BACKSLASH then
      if |s| >= 2 && s[1] == 0x75 then
        if HexFour(s[2..]).None? then Bad else Prepend(HexFour(s[2..]).value, ParseChars(s[6..]))
      else if |s| >= 2 && SimpleEscape(s[1]).Some? then Prepend(SimpleEscape(s[1]).value, ParseChars(s[2..]))
      else Bad
    else if s[0] < 0x20 then Bad
    else Prepend(s[0], ParseChars(s[1..]))
  }

  // ---------------------------------------------------------------- values

  function Literal(s: Text, literal: Text, v: Json): (r: Parsed<Json>)
    requires literal != []
    ensures r.Good? ==> |r.rest| < |s|
  {
    if literal <= s then Good(v, s[|literal|..]) else Bad
  }

  function ParseNumber(numerals: Numerals, s: Text): (r: Parsed<Json>)
    ensures r.Good? ==> |r.rest| < |s|
  {
    var n := NumberLength(s);
    if n == 0 || numerals.normal(s[..n]).None? then Bad else Good(Number(numerals.normal(s[..n]).value), s[n..])
  }

  /** A later member of the same key replaces the value of the earlier one, in its place. */
  function SetMember(members: seq<Member>, m: Member): seq<Member> {
    if members == [] then [m]
    else if members[0].key == m.key then [m] + members[1..]
    else [members[0]] + SetMember(members[1..], m)
  }

  function SetAll(members: seq<Member>, more: seq<Member>): seq<Member>
    decreases |more|
  {
    if more == [] then members else SetAll(SetMember(members, more[0]), more[1..])
  }

  function ParseValue(numerals: Numerals, s: Text): (r: Parsed<Json>)
    ensures r.Good? ==> |r.rest| < |s|
    decreases |s|, 2
  {
    ParseBare(numerals, SkipWhite(s))
  }

  function ParseBare(numerals: Numerals, s: Text): (r: Parsed<Json>)
    ensures r.Good? ==> |r.rest| < |s|
    decreases |s|, 1
  {
    if s == [] then Bad
    else if s[0] == 0x6e then Literal(s, NULL_TEXT, Null)
    else if s[0] == 0x74 then Literal(s, TRUE_TEXT, Bool(true))
    else if s[0] == 0x66 then Literal(s, FALSE_TEXT, Bool(false))
    else if s[0] == QUOTE then
      var chars := ParseChars(s[1..]);
      if chars.Bad? then Bad else Good(String(chars.value), chars.rest)
    else if s[0] == OPEN_ARRAY then
      var after := SkipWhite(s[1..]);
      if after != [] && after[0] == CLOSE_ARRAY then Good(Array([]), after[1..])
      else
        var items := ParseItems(numerals, s[1..]);
        if items.Bad? then Bad else Good(Array(items.value), items.rest)
    else if s[0] == OPEN_OBJECT then
      var after := SkipWhite(s[1..]);
      if after != [] && after[0] == CLOSE_OBJECT then Good(Object([]), after[1..])
      else
        var members := ParseMembers(numerals, s[1..]);
        if members.Bad? then Bad else Good(Object(SetAll([], members.value)), members.rest)
    else ParseNumber(numerals, s)
  }

  /** One value or more, separated by commas, up to the closing bracket. */
  function ParseItems(numerals: Numerals, s: Text): (r: Parsed<seq<Json>>)
    ensures r.Good? ==> |r.rest| < |s|
    decreases |s|, 3
  {
    var first := ParseValue(numerals, s);
    if first.Bad? then Bad
    else
      var after := SkipWhite(first.rest);
      if after == [] then Bad
      else if after[0] == CLOSE_ARRAY then Good([first.value], after[1..])
      else if after[0] == COMMA then
        var more := ParseItems(numerals, after[1..]);
        if more.Bad? then Bad else Good([first.value] + more.value, more.rest)
      else Bad
  }

  function ParseMember(numerals: Numerals, s: Text): (r: Parsed<Member>)
    ensures r.Good? ==> |r.rest| < |s|
    decreases |s|, 3
  {
    var start := SkipWhite(s);
    if start == [] || start[0] != QUOTE then Bad
    else
      var key := ParseChars(start[1..]);
      if key.Bad? then Bad
      else
        var after := SkipWhite(key.rest);
        if after == [] || after[0] != COLON then Bad
        else
          var v := ParseValue(numerals, after[1..]);
          if v.Bad? then Bad else Good(Member(key.value, v.value), v.rest)
  }

  function ParseMembers(numerals: Numerals, s: Text): (r: Parsed<seq<Member>>)
    ensures r.Good? ==> |r.rest| < |s|
    decreases |s|, 4
  {
    var first := ParseMember(numerals, s);
    if first.Bad? then Bad
    else
      var after := SkipWhite(first.rest);
      if after == [] then Bad
      else if after[0] == CLOSE_OBJECT then Good([first.value], after[1..])
      else if after[0] == COMMA then
        var more := ParseMembers(numerals, after[1..]);
        if more.Bad? then Bad else Good([first.value] + more.value, more.rest)
      else Bad
  }

  /** JSON.parse. */
  function Parse(numerals: Numerals, s: Text): Option<Json> {
    var v := ParseValue(numerals, s);
    if v.Good? && SkipWhite(v.rest) == [] then Some(v.value) else None
  }

  const BYTE_ORDER_MARK: nat := 0xfeff

  /** parseCanonicalJson: parse without a leading byte order mark, and accept only what prints back exactly. */
  function ParseCanonical(numerals: Numerals, raw: Text): Option<Json> {
    var text := if raw != [] && raw[0] == BYTE_ORDER_MARK then raw[1..] else raw;
    var parsed := Parse(numerals, text);
    if parsed.Some? && CanonicalJson(parsed.value) == Some(raw) then parsed else None
  }
}
