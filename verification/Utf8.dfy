/** UTF-8 (RFC 3629, section 4), UTF-16, and valid text. */
module Utf8 {
  import opened Wrappers
  import opened Octets
  import opened Json

  predicate IsScalar(c: nat) { c < 0x110000 && !High(c) && !Low(c) }

  predicate AllScalars(s: seq<nat>) { forall i :: 0 <= i < |s| ==> IsScalar(s[i]) }

  // ---------------------------------------------------------------- encoding

  function EncodeOne(c: nat): Bytes
    requires IsScalar(c)
  {
    if c < 0x80 then [c]
    else if c < 0x800 then [0xc0 + c / 64, Tail(c)]
    else if c < 0x10000 then [0xe0 + c / 64 / 64, Tail(c / 64), Tail(c)]
    else [0xf0 + c / 64 / 64 / 64, Tail(c / 64 / 64), Tail(c / 64), Tail(c)]
  }

  function Tail(c: nat): Byte { 0x80 + c % 64 }

  function Encode(s: seq<nat>): Bytes
    requires AllScalars(s)
  {
    if s == [] then [] else EncodeOne(s[0]) + Encode(s[1..])
  }

  ghost predicate IsUtf8(bytes: Bytes) {
    exists s :: AllScalars(s) && Encode(s) == bytes
  }

  // ---------------------------------------------------------------- recognition

  /** (byte & 0xc0) === 0x80. */
  predicate IsTail(b: Byte) { b / 64 == 2 }

  /** How many bytes follow `first`, or -1. */
  function Following(first: Byte): int {
    if first <= 0x7f then 0
    else if 0xc2 <= first <= 0xdf then 1
    else if 0xe0 <= first <= 0xef then 2
    else if 0xf0 <= first <= 0xf4 then 3
    else -1
  }

  /** Overlong, surrogate or out of range, from the first two bytes. */
  predicate BadSecond(first: Byte, second: Byte) {
    (first == 0xe0 && second < 0xa0) || (first == 0xed && second >= 0xa0)
    || (first == 0xf0 && second < 0x90) || (first == 0xf4 && second >= 0x90)
  }

  /** The bytes start with one encoded scalar value. */
  predicate StartsWell(bytes: Bytes) {
    bytes != [] && 0 <= Following(bytes[0]) < |bytes|
    && (Following(bytes[0]) > 0 ==> !BadSecond(bytes[0], bytes[1]))
    && forall i :: 1 <= i <= Following(bytes[0]) ==> IsTail(bytes[i])
  }

  /** `high` shifted left by the six bits of a tail byte. */
  function Shifted(high: nat, b: int): nat
    requires b / 64 == 2
  {
    high * 64 + (b - 0x80)
  }

  function FirstScalar(bytes: Bytes): nat
    requires StartsWell(bytes)
  {
    var n := Following(bytes[0]);
    if n == 0 then bytes[0]
    else if n == 1 then Shifted(bytes[0] - 0xc0, bytes[1])
    else if n == 2 then Shifted(Shifted(bytes[0] - 0xe0, bytes[1]), bytes[2])
    else Shifted(Shifted(Shifted(bytes[0] - 0xf0, bytes[1]), bytes[2]), bytes[3])
  }

  lemma TailOf(high: nat, b: Byte)
    requires IsTail(b)
    ensures Tail(Shifted(high, b)) == b && Shifted(high, b) / 64 == high
  {
  }

  lemma StartsWellEncodes(bytes: Bytes)
    requires StartsWell(bytes)
    ensures IsScalar(FirstScalar(bytes))
    ensures EncodeOne(FirstScalar(bytes)) == bytes[..Following(bytes[0]) + 1]
  {
    var n := Following(bytes[0]);
    if n == 1 {
      TailOf(bytes[0] - 0xc0, bytes[1]);
    } else if n == 2 {
      var c := Shifted(bytes[0] - 0xe0, bytes[1]);
      TailOf(bytes[0] - 0xe0, bytes[1]);
      TailOf(c, bytes[2]);
    } else if n == 3 {
      var c := Shifted(bytes[0] - 0xf0, bytes[1]);
      TailOf(bytes[0] - 0xf0, bytes[1]);
      TailOf(c, bytes[2]);
      TailOf(Shifted(c, bytes[2]), bytes[3]);
    }
  }

  lemma EncodedStartsWell(c: nat, rest: Bytes)
    requires IsScalar(c)
    ensures StartsWell(EncodeOne(c) + rest) && FirstScalar(EncodeOne(c) + rest) == c
    ensures Following((EncodeOne(c) + rest)[0]) + 1 == |EncodeOne(c)|
  {
    var d, e := c / 64, c / 64 / 64;
    assert c == d * 64 + c % 64 && d == e * 64 + d % 64 && e == e / 64 * 64 + e % 64;
  }

  /** A text is UTF-8 exactly when it is empty or one scalar value and then UTF-8. */
  lemma Utf8Steps(bytes: Bytes)
    requires bytes != []
    ensures IsUtf8(bytes) <==> StartsWell(bytes) && IsUtf8(bytes[Following(bytes[0]) + 1..])
  {
    if IsUtf8(bytes) {
      var s :| AllScalars(s) && Encode(s) == bytes;
      EncodedStartsWell(s[0], Encode(s[1..]));
      assert bytes[Following(bytes[0]) + 1..] == Encode(s[1..]);
      assert AllScalars(s[1..]);
    }
    if StartsWell(bytes) && IsUtf8(bytes[Following(bytes[0]) + 1..]) {
      var n := Following(bytes[0]) + 1;
      var rest :| AllScalars(rest) && Encode(rest) == bytes[n..];
      var s := [FirstScalar(bytes)] + rest;
      StartsWellEncodes(bytes);
      assert s[1..] == rest;
      assert bytes == bytes[..n] + bytes[n..];
      assert Encode(s) == bytes;
    }
  }

  lemma EmptyIsUtf8()
    ensures IsUtf8([])
  {
    assert Encode([]) == [];
  }

  /** validUtf8: the index loop accepts exactly the encodings of sequences of scalar values. */
  method ValidUtf8(bytes: Bytes) returns (ok: bool)
    ensures ok <==> IsUtf8(bytes)
  {
    var index := 0;
    while index < |bytes|
      invariant 0 <= index <= |bytes|
      invariant IsUtf8(bytes) <==> IsUtf8(bytes[index..])
    {
      ghost var rest := bytes[index..];
      Utf8Steps(rest);
      var first := bytes[index];
      index := index + 1;
      if first <= 0x7f {
        assert rest[1..] == bytes[index..];
        continue;
      }
      var count := Following(first);
      if count < 0 || index + count > |bytes| { return false; }
      var second := bytes[index];
      if BadSecond(first, second) { return false; }
      ghost var start := index;
      for offset := 0 to count
        invariant index == start + offset
        invariant forall i :: 1 <= i <= offset ==> IsTail(rest[i])
      {
        var tail := bytes[index];
        index := index + 1;
        if !IsTail(tail) {
          assert rest[offset + 1] == tail;
          return false;
        }
      }
      assert rest[count + 1..] == bytes[index..];
    }
    EmptyIsUtf8();
    assert bytes[index..] == [];
    return true;
  }

  // ---------------------------------------------------------------- UTF-16

  function Units(c: nat): Text
    requires IsScalar(c)
  {
    if c < 0x10000 then [c] else [0xd800 + (c - 0x10000) / 0x400, 0xdc00 + (c - 0x10000) % 0x400]
  }

  /** The code units of a decoded text. */
  function Utf16(s: seq<nat>): Text
    requires AllScalars(s)
  {
    if s == [] then [] else Units(s[0]) + Utf16(s[1..])
  }

  /** codePointAt(0) of each element of Array.from(value); nothing for a surrogate without its partner. */
  function CodePoint(s: Text): nat
    requires s != []
  {
    if High(s[0]) && |s| >= 2 && Low(s[1]) then (s[0] - 0xd800) * 0x400 + (s[1] - 0xdc00) + 0x10000 else s[0]
  }

  function UnitCount(s: Text): nat
    requires s != []
  {
    if High(s[0]) && |s| >= 2 && Low(s[1]) then 2 else 1
  }

  /** utf8Bytes: how many bytes the text takes, refused where a surrogate has no partner. */
  function Utf8Bytes(value: Text): Option<nat>
    decreases |value|
  {
    if value == [] then Some(0)
    else
      var code := CodePoint(value);
      if High(code) || Low(code) then None
      else
        var rest := Utf8Bytes(value[UnitCount(value)..]);
        var size := if code < 0x80 then 1 else if code < 0x800 then 2 else if code < 0x10000 then 3 else 4;
        if rest.None? then None else Some(size + rest.value)
  }

  lemma UnitsRead(c: nat, rest: Text)
    requires IsScalar(c)
    ensures CodePoint(Units(c) + rest) == c && UnitCount(Units(c) + rest) == |Units(c)|
    ensures (Units(c) + rest)[|Units(c)|..] == rest
  {
    if c >= 0x10000 {
      var d := c - 0x10000;
      assert d / 0x400 < 0x400 && d == d / 0x400 * 0x400 + d % 0x400;
    }
  }

  /** A decoded text takes as many bytes as it was decoded from, and never fewer bytes than code units. */
  lemma {:induction false} DecodedLength(s: seq<nat>)
    requires AllScalars(s)
    ensures Utf8Bytes(Utf16(s)) == Some(|Encode(s)|) && |Utf16(s)| <= |Encode(s)|
  {
    if s != [] {
      assert AllScalars(s[1..]);
      DecodedLength(s[1..]);
      UnitsRead(s[0], Utf16(s[1..]));
    }
  }

  lemma ReadUnits(s: Text)
    requires s != [] && CodePoint(s) < 0x110000 && !High(CodePoint(s)) && !Low(CodePoint(s))
    requires forall i :: 0 <= i < |s| ==> s[i] < 0x10000
    ensures UnitCount(s) <= |s| && Units(CodePoint(s)) == s[..UnitCount(s)]
  {
  }

  /** Exactly the scalar strings have a length in bytes: those that are some text's code units. */
  lemma {:induction false} MeasuredIsScalar(s: Text) returns (points: seq<nat>)
    requires forall i :: 0 <= i < |s| ==> s[i] < 0x10000
    ensures Utf8Bytes(s).Some? <==> Scalar(s)
    ensures Scalar(s) ==> AllScalars(points) && Utf16(points) == s
    decreases |s|
  {
    points := [];
    if s != [] {
      var n := UnitCount(s);
      var rest := MeasuredIsScalar(s[n..]);
      if Scalar(s) {
        ReadUnits(s);
        points := [CodePoint(s)] + rest;
        assert points[1..] == rest;
        assert s == s[..n] + s[n..];
      }
    }
  }

  /** Buffer.from(value, "utf8").byteLength, where a surrogate without its partner counts as U+FFFD. */
  function ByteLength(value: Text): nat
    decreases |value|
  {
    if value == [] then 0
    else
      var code := CodePoint(value);
      (if code < 0x80 then 1 else if code < 0x800 then 2 else if code < 0x10000 then 3 else 4)
      + ByteLength(value[UnitCount(value)..])
  }

  /** A text has no more code units than bytes. */
  lemma {:induction false} UnitsWithinBytes(value: Text)
    ensures |value| <= ByteLength(value)
    ensures Utf8Bytes(value).Some? ==> Utf8Bytes(value).value == ByteLength(value)
    decreases |value|
  {
    if value != [] { UnitsWithinBytes(value[UnitCount(value)..]); }
  }
}
