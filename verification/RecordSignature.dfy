/** The base64 text of a record signature: bounded, canonical, and strict DER with low S. */
module RecordSignature {
  import opened Wrappers
  import opened Octets
  import opened SignatureDer

  type Text = seq<nat>

  const PAD: nat := 0x3d

  // ---------------------------------------------------------------- base64

  type Six = d: int | 0 <= d < 64

  function Letter(d: Six): nat {
    if d < 26 then 0x41 + d
    else if d < 52 then 0x61 + (d - 26)
    else if d < 62 then 0x30 + (d - 52)
    else if d == 62 then 0x2b
    else 0x2f
  }

  function SixBits(c: nat): Option<Six> {
    if 0x41 <= c <= 0x5a then Some(c - 0x41)
    else if 0x61 <= c <= 0x7a then Some(c - 0x61 + 26)
    else if 0x30 <= c <= 0x39 then Some(c - 0x30 + 52)
    else if c == 0x2b then Some(62)
    else if c == 0x2f then Some(63)
    else None
  }

  predicate IsLetter(c: nat) { SixBits(c).Some? }

  /** bytes.toString("base64"). */
  function ToBase64(b: Bytes): Text {
    if |b| == 0 then []
    else if |b| == 1 then [Letter(First(b[0])), Letter(Second(b[0], 0)), PAD, PAD]
    else if |b| == 2 then [Letter(First(b[0])), Letter(Second(b[0], b[1])), Letter(Third(b[1], 0)), PAD]
    else Quad(b[0], b[1], b[2]) + ToBase64(b[3..])
  }

  // The four letters of three bytes.
  function First(x: Byte): Six { x / 4 }
  function Second(x: Byte, y: Byte): Six { x % 4 * 16 + y / 16 }
  function Third(y: Byte, z: Byte): Six { y % 16 * 4 + z / 64 }
  function Fourth(z: Byte): Six { z % 64 }

  function Quad(x: Byte, y: Byte, z: Byte): Text {
    [Letter(First(x)), Letter(Second(x, y)), Letter(Third(y, z)), Letter(Fourth(z))]
  }

  /** CANONICAL_BASE64_PATTERN: groups of four letters, and at most one padded group, the last. */
  predicate IsPattern(t: Text) {
    t == []
    || (|t| >= 4 && IsLetter(t[0]) && IsLetter(t[1]) && IsLetter(t[2]) && IsLetter(t[3]) && IsPattern(t[4..]))
    || (|t| == 4 && IsLetter(t[0]) && IsLetter(t[1]) && t[3] == PAD && (t[2] == PAD || IsLetter(t[2])))
  }

  /** Buffer.from(text, "base64"): bits that fill no byte are dropped. */
  function FromBase64(t: Text): Bytes
    requires IsPattern(t)
  {
    if t == [] then []
    else
      var p, q := SixBits(t[0]).value, SixBits(t[1]).value;
      if t[2] == PAD then [p * 4 + q / 16]
      else
        var r := SixBits(t[2]).value;
        if t[3] == PAD then [p * 4 + q / 16, q % 16 * 16 + r / 4]
        else
          var s := SixBits(t[3]).value;
          [p * 4 + q / 16, q % 16 * 16 + r / 4, r % 4 * 64 + s] + FromBase64(t[4..])
  }

  // ---------------------------------------------------------------- decoding a record signature

  /** decodeRecordSignature. */
  function DecodeRecordSignature(value: Text): Option<Bytes> {
    if |value| < 8 || |value| > 96 || !IsPattern(value) then None
    else
      var signature := FromBase64(value);
      if ToBase64(signature) != value || !IsLowS(signature) then None else Some(signature)
  }

  /** signerRecordSignature: what a signer returns is passed on when it is low-S. */
  function SignerRecordSignature(signature: Bytes): Option<Bytes> {
    if IsLowS(signature) then Some(signature) else None
  }

  lemma LetterRoundTrip(d: Six)
    ensures SixBits(Letter(d)) == Some(d) && Letter(d) != PAD
  {
  }

  lemma ThreeBytes(x: Byte, y: Byte, z: Byte)
    ensures First(x) * 4 + Second(x, y) / 16 == x
    ensures Second(x, y) % 16 * 16 + Third(y, z) / 4 == y
    ensures Third(y, z) % 4 * 64 + Fourth(z) == z
  {
    assert (x % 4 * 16 + y / 16) / 16 == x % 4 && (x % 4 * 16 + y / 16) % 16 == y / 16;
    assert (y % 16 * 4 + z / 64) / 4 == y % 16 && (y % 16 * 4 + z / 64) % 4 == z / 64;
  }

  /** Reading a group of four letters of the values given. */
  lemma ReadGroup(t: Text, p: Six, q: Six, r: Six, s: Six)
    requires IsPattern(t)
    ensures IsPattern([Letter(p), Letter(q), Letter(r), Letter(s)] + t)
    ensures FromBase64([Letter(p), Letter(q), Letter(r), Letter(s)] + t)
         == [p * 4 + q / 16, q % 16 * 16 + r / 4, r % 4 * 64 + s] + FromBase64(t)
  {
    assert ([Letter(p), Letter(q), Letter(r), Letter(s)] + t)[4..] == t;
    LetterRoundTrip(p);
    LetterRoundTrip(q);
    LetterRoundTrip(r);
    LetterRoundTrip(s);
  }

  lemma ReadPadded(p: Six, q: Six, r: Six)
    ensures IsPattern([Letter(p), Letter(q), PAD, PAD]) && IsPattern([Letter(p), Letter(q), Letter(r), PAD])
    ensures FromBase64([Letter(p), Letter(q), PAD, PAD]) == [p * 4 + q / 16]
    ensures FromBase64([Letter(p), Letter(q), Letter(r), PAD]) == [p * 4 + q / 16, q % 16 * 16 + r / 4]
  {
    LetterRoundTrip(p);
    LetterRoundTrip(q);
    LetterRoundTrip(r);
  }

  lemma OneByte(x: Byte)
    ensures IsPattern(ToBase64([x])) && FromBase64(ToBase64([x])) == [x]
  {
    ThreeBytes(x, 0, 0);
    ReadPadded(First(x), Second(x, 0), 0);
  }

  lemma TwoBytes(x: Byte, y: Byte)
    ensures IsPattern(ToBase64([x, y])) && FromBase64(ToBase64([x, y])) == [x, y]
  {
    ThreeBytes(x, y, 0);
    ReadPadded(First(x), Second(x, y), Third(y, 0));
  }

  lemma ThreeThenMore(x: Byte, y: Byte, z: Byte, t: Text)
    requires IsPattern(t)
    ensures IsPattern(Quad(x, y, z) + t) && FromBase64(Quad(x, y, z) + t) == [x, y, z] + FromBase64(t)
  {
    ThreeBytes(x, y, z);
    ReadGroup(t, First(x), Second(x, y), Third(y, z), Fourth(z));
  }

  /** Base64 undoes itself. */
  lemma {:induction false} Base64RoundTrip(b: Bytes)
    ensures IsPattern(ToBase64(b)) && FromBase64(ToBase64(b)) == b
    decreases |b|
  {
    if |b| == 0 {
    } else if |b| == 1 {
      assert b == [b[0]];
      OneByte(b[0]);
    } else if |b| == 2 {
      assert b == [b[0], b[1]];
      TwoBytes(b[0], b[1]);
    } else {
      Base64RoundTrip(b[3..]);
      assert b == [b[0], b[1], b[2]] + b[3..];
      ThreeThenMore(b[0], b[1], b[2], ToBase64(b[3..]));
    }
  }

  /** Four characters for every three bytes begun. */
  lemma {:induction false} Base64Length(b: Bytes)
    ensures |ToBase64(b)| == (|b| + 2) / 3 * 4
    decreases |b|
  {
    if |b| > 2 { Base64Length(b[3..]); }
  }

  lemma LowSLength(signature: Bytes)
    requires IsLowS(signature)
    ensures 8 <= |signature| <= 71
  {
    LowSIsNormalForm(signature);
    NormalizeShortens(signature);
  }

  lemma Accepts(value: Text, signature: Bytes)
    requires 8 <= |value| <= 96 && IsPattern(value) && FromBase64(value) == signature
    requires ToBase64(signature) == value && IsLowS(signature)
    ensures DecodeRecordSignature(value) == Some(signature)
  {
  }

  lemma SignedIsAccepted(signature: Bytes)
    requires IsLowS(signature)
    ensures DecodeRecordSignature(ToBase64(signature)) == Some(signature)
  {
    Base64RoundTrip(signature);
    assert 8 <= |ToBase64(signature)| <= 96 by {
      Base64Length(signature);
      LowSLength(signature);
    }
    Accepts(ToBase64(signature), signature);
  }

  /**
   * The accepted texts are exactly the base64 texts of low-S signatures, each
   * of one signature: the length bounds refuse nothing a signer may return.
   */
  lemma AcceptsExactlySigned(value: Text, signature: Bytes)
    ensures DecodeRecordSignature(value) == Some(signature) <==>
            value == ToBase64(signature) && SignerRecordSignature(signature) == Some(signature)
  {
    if IsLowS(signature) { SignedIsAccepted(signature); }
  }

  /** A normalised signature of any decodable one survives the trip through its text. */
  lemma NormalizedSurvives(signature: Bytes)
    requires Decode(signature).Some?
    ensures Normalize(signature).Some?
    ensures DecodeRecordSignature(ToBase64(Normalize(signature).value)) == Normalize(signature)
  {
    NormalizeShortens(signature);
    NormalizeIsLow(signature);
    AcceptsExactlySigned(ToBase64(Normalize(signature).value), Normalize(signature).value);
  }
}
