/** Strict DER for P-256 signatures, and their low-S form. */
module SignatureDer {
  import opened Wrappers
  import opened Octets

  type Hex = h: int | 0 <= h < 16

  const ORDER: nat := 0xffffffff00000000ffffffffffffffffbce6faada7179e84f3b9cac2fc632551
  const HALF_ORDER: nat := ORDER / 2

  datatype Scalars = Scalars(r: nat, s: nat)
  datatype Read = Read(value: nat, next: nat)

  // ---------------------------------------------------------------- hexadecimal

  /** BigInt of a hexadecimal text. */
  function FromHex(h: seq<Hex>): nat {
    if h == [] then 0 else 16 * FromHex(h[..|h| - 1]) + h[|h| - 1]
  }

  /** value.toString(16). */
  function ToHex(v: nat): (h: seq<Hex>) {
    if v < 16 then [v] else ToHex(v / 16) + [v % 16]
  }

  function Pair(high: int, low: int): Byte
    requires 0 <= high < 16 && 0 <= low < 16
  {
    16 * high + low
  }

  /** Buffer.from(hex, "hex"), of an even number of digits. */
  function FromPairs(h: seq<Hex>): Bytes
    requires |h| % 2 == 0
  {
    if h == [] then [] else FromPairs(h[..|h| - 2]) + [Pair(h[|h| - 2], h[|h| - 1])]
  }

  /** bytes.toString("hex"). */
  function ToPairs(b: Bytes): (h: seq<Hex>) {
    if b == [] then [] else ToPairs(b[..|b| - 1]) + [b[|b| - 1] / 16, b[|b| - 1] % 16]
  }

  // ---------------------------------------------------------------- decoding

  /** The bytes of the integer at `offset`, if it is positive and minimal there. */
  function IntegerAt(bytes: Bytes, offset: nat): Option<Bytes> {
    if offset >= |bytes| || bytes[offset] != 0x02 then None
    else if offset + 1 >= |bytes| || bytes[offset + 1] == 0 || bytes[offset + 1] > 33 then None
    else
      var start := offset + 2;
      var end := start + bytes[offset + 1];
      if end > |bytes| then None
      else
        var integer := bytes[start..end];
        if integer[0] >= 0x80 then None
        else if |integer| > 1 && integer[0] == 0 && integer[1] < 0x80 then None
        else Some(integer)
  }

  function IntegerValue(integer: Bytes): nat
    requires integer != []
  {
    var magnitude := if integer[0] == 0 then integer[1..] else integer;
    if |magnitude| == 0 then 0 else FromHex(ToPairs(magnitude))
  }

  function ReadInteger(bytes: Bytes, offset: nat): Option<Read> {
    var integer := IntegerAt(bytes, offset);
    if integer.None? then None else Some(Read(IntegerValue(integer.value), offset + 2 + |integer.value|))
  }

  function Decode(signature: Bytes): Option<Scalars> {
    if |signature| < 8 || |signature| > 72 || signature[0] != 0x30 then None
    else if signature[1] >= 0x80 || signature[1] != |signature| - 2 then None
    else
      var r := ReadInteger(signature, 2);
      if r.None? then None
      else
        var s := ReadInteger(signature, r.value.next);
        if s.None? || s.value.next != |signature| then None
        else if !InGroup(r.value.value) || !InGroup(s.value.value) then None
        else Some(Scalars(r.value.value, s.value.value))
  }

  predicate InGroup(v: nat) { 0 < v < ORDER }

  // ---------------------------------------------------------------- encoding

  function Magnitude(value: nat): Bytes {
    var hex := ToHex(value);
    var magnitude := FromPairs(if |hex| % 2 != 0 then [0] + hex else hex);
    if |magnitude| > 0 && magnitude[0] >= 0x80 then [0] + magnitude else magnitude
  }

  /** Buffer.from stores each number modulo 256. */
  function Stored(n: nat): Byte { n % 256 }

  function IntegerBytes(magnitude: Bytes): Bytes { [0x02, Stored(|magnitude|)] + magnitude }

  function EncodeInteger(value: nat): Bytes { IntegerBytes(Magnitude(value)) }

  function SequenceBytes(body: Bytes): Bytes { [0x30, Stored(|body|)] + body }

  function Encode(r: nat, s: nat): Option<Bytes> {
    if !InGroup(r) || !InGroup(s) then None
    else Some(SequenceBytes(EncodeInteger(r) + EncodeInteger(s)))
  }

  function Low(s: nat): nat
    requires s < ORDER
  {
    if s > HALF_ORDER then ORDER - s else s
  }

  function Normalize(signature: Bytes): Option<Bytes> {
    var decoded := Decode(signature);
    if decoded.None? then None else Encode(decoded.value.r, Low(decoded.value.s))
  }

  /** assertP256LowS passes. */
  predicate IsLowS(signature: Bytes) {
    Decode(signature).Some? && Decode(signature).value.s <= HALF_ORDER
  }

  // ---------------------------------------------------------------- big-endian values

  function Value(b: Bytes): nat {
    if b == [] then 0 else 256 * Value(b[..|b| - 1]) + b[|b| - 1]
  }

  function Power(n: nat): nat { if n == 0 then 1 else 256 * Power(n - 1) }

  lemma {:induction false} PowerGrows(m: nat, n: nat)
    requires m <= n
    ensures 0 < Power(m) <= Power(n)
    decreases n
  {
    if m < n {
      PowerGrows(m, n - 1);
    } else if m > 0 {
      PowerGrows(m - 1, n - 1);
    }
  }

  lemma {:induction false} PairsValue(b: Bytes)
    ensures FromHex(ToPairs(b)) == Value(b)
  {
    if b != [] {
      var front, last := b[..|b| - 1], b[|b| - 1];
      var h := ToPairs(front) + [last / 16, last % 16];
      PairsValue(front);
      assert h[..|h| - 1] == ToPairs(front) + [last / 16];
      assert h[..|h| - 1][..|h| - 2] == ToPairs(front);
    }
  }

  lemma TwoDigits(h: seq<Hex>, front: seq<Hex>)
    requires |h| >= 2 && front == h[..|h| - 2]
    ensures FromHex(h) == 256 * FromHex(front) + Pair(h[|h| - 2], h[|h| - 1])
  {
    var most := h[..|h| - 1];
    assert most[..|most| - 1] == front;
    assert FromHex(most) == 16 * FromHex(front) + most[|most| - 1];
  }

  lemma {:induction false} FromPairsValue(h: seq<Hex>)
    requires |h| % 2 == 0
    ensures Value(FromPairs(h)) == FromHex(h)
    ensures |FromPairs(h)| == |h| / 2
    ensures h != [] ==> FromPairs(h)[0] == Pair(h[0], h[1])
  {
    if h != [] {
      var front := h[..|h| - 2];
      var last := Pair(h[|h| - 2], h[|h| - 1]);
      FromPairsValue(front);
      assert (FromPairs(front) + [last])[..|front| / 2] == FromPairs(front);
      TwoDigits(h, front);
      assert h[..|h| - 1][..|h| - 2] == front;
    }
  }

  lemma {:induction false} ToHexRoundTrip(v: nat)
    ensures FromHex(ToHex(v)) == v
    ensures |ToHex(v)| > 0 && (ToHex(v)[0] == 0 ==> v == 0 && |ToHex(v)| == 1)
  {
    if v >= 16 {
      ToHexRoundTrip(v / 16);
      assert ToHex(v)[..|ToHex(v)| - 1] == ToHex(v / 16);
    } else {
      assert [v][..0] == [];
    }
  }

  lemma {:induction false} LeadingZeroHex(h: seq<Hex>)
    ensures FromHex([0] + h) == FromHex(h)
  {
    if h == [] {
      assert ([0] + h)[..0] == [];
    } else {
      assert ([0] + h)[..|h|] == [0] + h[..|h| - 1];
      LeadingZeroHex(h[..|h| - 1]);
    }
  }

  lemma {:induction false} LeadingZero(b: Bytes)
    ensures Value([0] + b) == Value(b)
  {
    if b == [] {
      assert ([0] + b)[..0] == [];
    } else {
      assert ([0] + b)[..|b|] == [0] + b[..|b| - 1];
      LeadingZero(b[..|b| - 1]);
    }
  }

  // ---------------------------------------------------------------- minimal encodings

  /** Positive, and with no byte more than that takes (section 8.3.2 of X.690). */
  predicate Minimal(m: Bytes) {
    m != [] && m[0] < 0x80 && (|m| > 1 && m[0] == 0 ==> m[1] >= 0x80)
  }

  /** The first byte, and the first two, decide a value to within one unit of the rest. */
  lemma {:induction false} ValueWithin(m: Bytes, k: nat, head: nat)
    requires k <= |m| && head == Value(m[..k])
    ensures head * Power(|m| - k) <= Value(m) < (head + 1) * Power(|m| - k)
    decreases |m|
  {
    if k == |m| {
      assert m[..k] == m;
    } else {
      var front := m[..|m| - 1];
      assert front[..k] == m[..k];
      ValueWithin(front, k, head);
      WithinOneMore(Value(front), m[|m| - 1], head, Power(|front| - k));
    }
  }

  lemma WithinOneMore(front: nat, last: Byte, head: nat, p: nat)
    requires head * p <= front < (head + 1) * p
    ensures head * (256 * p) <= 256 * front + last < (head + 1) * (256 * p)
  {
    assert head * (256 * p) == 256 * (head * p);
    assert (head + 1) * (256 * p) == 256 * ((head + 1) * p);
  }

  lemma ValueOne(m: Bytes)
    requires |m| >= 1
    ensures Value(m[..1]) == m[0]
    ensures |m| >= 2 && m[0] == 0 ==> Value(m[..2]) == m[1]
    ensures |m| >= 2 ==> Value(m[..2]) >= 256 * (m[0] as int)
  {
    assert m[..1][..0] == [];
    if |m| >= 2 { assert m[..2][..1] == m[..1]; }
  }

  /** How long a minimal encoding is tells its value, and the other way round. */
  lemma MinimalBounds(m: Bytes)
    requires Minimal(m)
    ensures Value(m) < 0x80 * Power(|m| - 1)
    ensures |m| > 1 ==> 0x80 * Power(|m| - 2) <= Value(m)
  {
    ValueOne(m);
    ValueWithin(m, 1, Value(m[..1]));
    Scale(Value(m[..1]) + 1, 0x80, Power(|m| - 1));
    if |m| > 1 {
      ValueWithin(m, 2, Value(m[..2]));
      Scale(0x80, Value(m[..2]), Power(|m| - 2));
    }
  }

  lemma Scale(a: nat, b: nat, p: nat)
    requires a <= b
    ensures a * p <= b * p
  {
  }

  lemma MinimalLength(a: Bytes, b: Bytes)
    requires Minimal(a) && Minimal(b) && Value(a) <= Value(b)
    ensures |a| <= |b|
  {
    MinimalBounds(a);
    MinimalBounds(b);
    if |a| > |b| { PowerGrows(|b| - 1, |a| - 2); }
  }

  lemma {:induction false} SameValue(a: Bytes, b: Bytes)
    requires |a| == |b| && Value(a) == Value(b)
    ensures a == b
  {
    if a != [] {
      var last := |a| - 1;
      assert 256 * Value(a[..last]) + a[last] == 256 * Value(b[..last]) + b[last];
      assert a[last] == b[last];
      SameValue(a[..last], b[..last]);
      assert a == a[..last] + [a[last]] && b == b[..last] + [b[last]];
    }
  }

  lemma MinimalUnique(a: Bytes, b: Bytes)
    requires Minimal(a) && Minimal(b) && Value(a) == Value(b)
    ensures a == b
  {
    MinimalLength(a, b);
    MinimalLength(b, a);
    SameValue(a, b);
  }

  lemma MagnitudeIsMinimal(v: nat)
    ensures Minimal(Magnitude(v)) && Value(Magnitude(v)) == v
  {
    var hex := ToHex(v);
    var even := if |hex| % 2 != 0 then [0] + hex else hex;
    ToHexRoundTrip(v);
    LeadingZeroHex(hex);
    FromPairsValue(even);
    LeadingZero(FromPairs(even));
  }

  lemma {:induction false} PowerAdds(m: nat, n: nat)
    ensures Power(m + n) == Power(m) * Power(n)
  {
    if m > 0 {
      PowerAdds(m - 1, n);
      assert 256 * (Power(m - 1) * Power(n)) == (256 * Power(m - 1)) * Power(n);
    }
  }

  lemma PowerValues()
    ensures Power(31) == 0x1_00000000_00000000_00000000_00000000_00000000_00000000_00000000_000000
    ensures Power(32) == 256 * Power(31)
  {
    assert Power(3) == 256 * (256 * (256 * Power(0)));
    PowerAdds(1, 3);
    PowerAdds(3, 4);
    PowerAdds(4, 4);
    PowerAdds(8, 8);
    PowerAdds(8, 7);
    PowerAdds(16, 15);
  }

  /** An integer below the order takes 1 to 33 bytes, and at most 32 up to half of it. */
  lemma MagnitudeLength(v: nat)
    requires v < ORDER
    ensures 1 <= |Magnitude(v)| <= 33
    ensures v <= HALF_ORDER ==> |Magnitude(v)| <= 32
  {
    var m := Magnitude(v);
    MagnitudeIsMinimal(v);
    MinimalBounds(m);
    PowerValues();
    if |m| > 33 { PowerGrows(32, |m| - 2); }
    if |m| > 32 { PowerGrows(31, |m| - 2); }
  }

  // ---------------------------------------------------------------- integers

  /** What readInteger computes from the bytes of an integer is their value. */
  lemma ReadValue(m: Bytes)
    requires m != []
    ensures IntegerValue(m) == Value(m)
  {
    if m[0] == 0 {
      assert m == [0] + m[1..];
      LeadingZero(m[1..]);
      PairsValue(m[1..]);
    } else {
      PairsValue(m);
    }
  }

  lemma FindsOnlyMinimal(bytes: Bytes, offset: nat, m: Bytes)
    requires IntegerAt(bytes, offset) == Some(m)
    ensures Minimal(m) && |m| <= 33 && offset + 2 + |m| <= |bytes|
    ensures bytes[offset..offset + 2 + |m|] == IntegerBytes(m)
  {
    assert Stored(|m|) == |m|;
  }

  /** An encoded integer, anywhere in a text, is found there. */
  lemma FindsMinimal(bytes: Bytes, before: Bytes, m: Bytes, after: Bytes)
    requires Minimal(m) && |m| <= 33 && bytes == before + IntegerBytes(m) + after
    ensures IntegerAt(bytes, |before|) == Some(m)
  {
    assert Stored(|m|) == |m|;
    assert bytes[|before|] == 0x02 && bytes[|before| + 1] == |m|;
    assert bytes[|before| + 2..|before| + 2 + |m|] == m;
  }

  // ---------------------------------------------------------------- signatures

  lemma DecodeParts(signature: Bytes, r: Bytes, s: Bytes)
    requires 8 <= |signature| <= 72 && signature[0] == 0x30 && signature[1] == |signature| - 2
    requires r != [] && s != [] && |signature| == 6 + |r| + |s|
    requires IntegerAt(signature, 2) == Some(r) && IntegerAt(signature, 4 + |r|) == Some(s)
    requires InGroup(Value(r)) && InGroup(Value(s))
    ensures Decode(signature) == Some(Scalars(Value(r), Value(s)))
  {
    ReadValue(r);
    ReadValue(s);
  }

  lemma Nested(head: Bytes, a: Bytes, b: Bytes)
    ensures head + (a + b) == head + a + b == (head + a) + b + []
  {
  }

  predicate Fits(r: Bytes, s: Bytes) { Minimal(r) && Minimal(s) && |r| <= 33 && |s| <= 33 }

  lemma DecodeBytes(r: Bytes, s: Bytes)
    requires Fits(r, s) && InGroup(Value(r)) && InGroup(Value(s))
    ensures Decode(SequenceBytes(IntegerBytes(r) + IntegerBytes(s))) == Some(Scalars(Value(r), Value(s)))
    ensures |SequenceBytes(IntegerBytes(r) + IntegerBytes(s))| == 6 + |r| + |s|
  {
    var a, b := IntegerBytes(r), IntegerBytes(s);
    var signature := SequenceBytes(a + b);
    var head: Bytes := [0x30, Stored(|a + b|)];
    Nested(head, a, b);
    FindsMinimal(signature, head, r, b);
    FindsMinimal(signature, head + a, s, []);
    DecodeParts(signature, r, s);
  }

  lemma SequenceOf(signature: Bytes, middle: nat, a: Bytes, b: Bytes)
    requires 2 <= middle <= |signature| <= 257 && signature[0] == 0x30 && signature[1] == |signature| - 2
    requires signature[2..middle] == a && signature[middle..|signature|] == b
    ensures signature == SequenceBytes(a + b)
  {
    assert |a + b| == |signature| - 2;
    assert signature == [signature[0], signature[1]] + (signature[2..middle] + signature[middle..|signature|]);
  }

  /** What decodes is the encoding of two minimal integers. */
  lemma DecodesOnlyBytes(signature: Bytes) returns (r: Bytes, s: Bytes)
    requires Decode(signature).Some?
    ensures Fits(r, s) && Decode(signature) == Some(Scalars(Value(r), Value(s)))
    ensures signature == SequenceBytes(IntegerBytes(r) + IntegerBytes(s))
  {
    r := IntegerAt(signature, 2).value;
    s := IntegerAt(signature, 4 + |r|).value;
    FindsOnlyMinimal(signature, 2, r);
    FindsOnlyMinimal(signature, 4 + |r|, s);
    ReadValue(r);
    ReadValue(s);
    SequenceOf(signature, 4 + |r|, IntegerBytes(r), IntegerBytes(s));
  }

  /** Every encoding takes 8 to 72 bytes, and at most 71 when `s` is low. */
  lemma EncodedLength(r: nat, s: nat)
    requires InGroup(r) && InGroup(s)
    ensures Encode(r, s).Some? && |Encode(r, s).value| == 6 + |Magnitude(r)| + |Magnitude(s)|
    ensures 8 <= |Encode(r, s).value| <= 72
    ensures s <= HALF_ORDER ==> |Encode(r, s).value| <= 71
  {
    MagnitudeLength(r);
    MagnitudeLength(s);
  }

  /** Decoding undoes encoding, for all scalars in range. */
  lemma DecodeEncode(r: nat, s: nat)
    requires InGroup(r) && InGroup(s)
    ensures Encode(r, s).Some? && Decode(Encode(r, s).value) == Some(Scalars(r, s))
  {
    MagnitudeIsMinimal(r);
    MagnitudeIsMinimal(s);
    MagnitudeLength(r);
    MagnitudeLength(s);
    DecodeBytes(Magnitude(r), Magnitude(s));
  }

  /** Encoding undoes decoding, for every accepted byte string. */
  lemma EncodeDecode(signature: Bytes)
    requires Decode(signature).Some?
    ensures Encode(Decode(signature).value.r, Decode(signature).value.s) == Some(signature)
  {
    var r, s := DecodesOnlyBytes(signature);
    MagnitudeIsMinimal(Value(r));
    MagnitudeIsMinimal(Value(s));
    MinimalUnique(r, Magnitude(Value(r)));
    MinimalUnique(s, Magnitude(Value(s)));
  }

  /** Normalising accepts exactly what decodes, never lengthens, and leaves at most 71 bytes. */
  lemma NormalizeShortens(signature: Bytes)
    ensures Normalize(signature).Some? <==> Decode(signature).Some?
    ensures Normalize(signature).Some? ==> 8 <= |Normalize(signature).value| <= 71
    ensures Normalize(signature).Some? ==> |Normalize(signature).value| <= |signature|
  {
    if Decode(signature).Some? {
      var d := Decode(signature).value;
      EncodeDecode(signature);
      EncodedLength(d.r, d.s);
      EncodedLength(d.r, Low(d.s));
      MagnitudeIsMinimal(d.s);
      MagnitudeIsMinimal(Low(d.s));
      MinimalLength(Magnitude(Low(d.s)), Magnitude(d.s));
    }
  }

  lemma NormalizeIsLow(signature: Bytes)
    requires Normalize(signature).Some?
    ensures Decode(Normalize(signature).value) == Some(Scalars(Decode(signature).value.r, Low(Decode(signature).value.s)))
    ensures IsLowS(Normalize(signature).value)
  {
    var d := Decode(signature).value;
    DecodeEncode(d.r, Low(d.s));
  }

  /** assertP256LowS accepts exactly the signatures that normalising returns, which are its fixed points. */
  lemma LowSIsNormalForm(signature: Bytes)
    ensures IsLowS(signature) <==> exists b :: Normalize(b) == Some(signature)
    ensures IsLowS(signature) <==> Normalize(signature) == Some(signature)
  {
    if IsLowS(signature) {
      EncodeDecode(signature);
      assert Normalize(signature) == Some(signature);
    }
    forall b | Normalize(b) == Some(signature) ensures IsLowS(signature) { NormalizeIsLow(b); }
  }

  /** Two signatures share their normal form exactly when they differ at most in the sign of `s`. */
  lemma SameNormalForm(a: Bytes, b: Bytes)
    requires Decode(a).Some? && Decode(b).Some?
    ensures Normalize(a) == Normalize(b) <==>
            Decode(a).value.r == Decode(b).value.r
            && (Decode(a).value.s == Decode(b).value.s || Decode(a).value.s == ORDER - Decode(b).value.s)
  {
    NormalizeShortens(a);
    NormalizeShortens(b);
    NormalizeIsLow(a);
    NormalizeIsLow(b);
  }
}
