/** The headers of a ZIP file, as sections 4.3.7, 4.3.12 and 4.3.16 of the PKWARE APPNOTE lay them out. */
module ZipHeaders {
  import opened Wrappers
  import opened Octets
  import opened Sequences

  const END_SIGNATURE := 0x06054b50
  const CENTRAL_SIGNATURE := 0x02014b50
  const LOCAL_SIGNATURE := 0x04034b50

  /** Little-endian, and only where the bytes are there. */
  function U16(bytes: Bytes, at: nat): nat
    requires at + 2 <= |bytes|
  {
    bytes[at] as int + 0x100 * (bytes[at + 1] as int)
  }

  function U32(bytes: Bytes, at: nat): nat
    requires at + 4 <= |bytes|
  {
    U16(bytes, at) + 0x10000 * U16(bytes, at + 2)
  }

  predicate IsAscii(name: Bytes) { forall i :: 0 <= i < |name| ==> name[i] <= 127 }

  // ---------------------------------------------------------------- the end record

  /** An end record at `at` whose comment runs exactly to the end of the file. */
  predicate IsEnd(bytes: Bytes, at: int) {
    0 <= at && at + 22 <= |bytes| && U32(bytes, at) == END_SIGNATURE && at + 22 + U16(bytes, at + 20) == |bytes|
  }

  /** Such a record, and none after it. */
  predicate IsLastEnd(bytes: Bytes, end: int) {
    IsEnd(bytes, end) && forall at :: end < at <= |bytes| - 22 ==> !IsEnd(bytes, at)
  }

  /** The search from the end of the file: no comment is longer than 65,535 bytes, so none is missed. */
  method FindEnd(bytes: Bytes) returns (end: int)
    ensures end < 0 ==> forall at :: !IsEnd(bytes, at)
    ensures end >= 0 ==> IsLastEnd(bytes, end)
  {
    end := -1;
    var at := |bytes| - 22;
    var least := if |bytes| < 65557 then 0 else |bytes| - 65557;
    while at >= least
      invariant at <= |bytes| - 22
      invariant forall k :: at < k <= |bytes| - 22 ==> !IsEnd(bytes, k)
      decreases at
    {
      if U32(bytes, at) == END_SIGNATURE && at + 22 + U16(bytes, at + 20) == |bytes| { return at; }
      at := at - 1;
    }
  }

  // ---------------------------------------------------------------- one member

  /** A member: where its central header starts and ends, where its local part starts and ends, and its name. */
  datatype Member = Member(at: nat, next: nat, local: nat, end: nat, name: Bytes)

  /** Bytes, the start of the central directory and the end record that follows it. */
  datatype Directory = Directory(bytes: Bytes, central: nat, end: nat) {
    predicate Valid() { central <= end && end + 22 <= |bytes| }
  }

  /** The fields of a central header that are read. */
  datatype Central = Central(
    signature: nat, flags: nat, compression: nat, checksum: nat, compressed: nat, size: nat,
    name: nat, extra: nat, comment: nat, disk: nat, local: nat)

  function CentralAt(bytes: Bytes, at: nat): Central
    requires at + 46 <= |bytes|
  {
    Central(U32(bytes, at), U16(bytes, at + 8), U16(bytes, at + 10), U32(bytes, at + 16), U32(bytes, at + 20), U32(bytes, at + 24),
            U16(bytes, at + 28), U16(bytes, at + 30), U16(bytes, at + 32), U16(bytes, at + 34), U32(bytes, at + 42))
  }

  /** The fields of a local header that are read. */
  datatype Local = Local(
    signature: nat, flags: nat, compression: nat, checksum: nat, compressed: nat, size: nat, name: nat, extra: nat)

  function LocalAt(bytes: Bytes, at: nat): Local
    requires at + 30 <= |bytes|
  {
    Local(U32(bytes, at), U16(bytes, at + 6), U16(bytes, at + 8), U32(bytes, at + 14), U32(bytes, at + 18), U32(bytes, at + 22),
          U16(bytes, at + 26), U16(bytes, at + 28))
  }

  /** Bit 3 of the flags: sizes and checksum follow the data instead. */
  predicate HasDescriptor(flags: nat) { flags / 8 % 2 == 1 }

  /** The local header describes the same member. */
  predicate Agrees(c: Central, l: Local) {
    l.signature == LOCAL_SIGNATURE && l.name == c.name && l.flags == c.flags && l.compression == c.compression
    && (HasDescriptor(c.flags) || (l.checksum == c.checksum && l.compressed == c.compressed && l.size == c.size))
  }

  predicate IsCentral(c: Central) { c.signature == CENTRAL_SIGNATURE && c.disk == 0 && 0 < c.name <= 4096 }

  function NextOf(at: nat, c: Central): nat { at + 46 + c.name + c.extra + c.comment }

  function EndOf(c: Central, l: Local): nat { c.local + 30 + l.name + l.extra + c.compressed }

  /** What the central header alone decides. */
  predicate CentralFits(d: Directory, at: nat, c: Central)
    requires d.Valid()
  {
    IsCentral(c) && NextOf(at, c) <= d.end && c.local + 30 <= d.central
  }

  predicate NamesMatch(d: Directory, at: nat, local: nat, size: nat)
    requires at + 46 + size <= |d.bytes| && local + 30 + size <= |d.bytes|
  {
    d.bytes[at + 46..at + 46 + size] == d.bytes[local + 30..local + 30 + size]
  }

  function NameAt(d: Directory, at: nat, size: nat): Bytes
    requires at + 46 + size <= |d.bytes|
  {
    d.bytes[at + 46..at + 46 + size]
  }

  /** The member of a central header at `at` and the local header it names, where both fit and agree, name included. */
  function MemberOf(d: Directory, at: nat, c: Central, l: Local): Option<Member>
    requires d.Valid() && CentralFits(d, at, c)
  {
    if !Agrees(c, l) || EndOf(c, l) > d.central || !NamesMatch(d, at, c.local, c.name) then None
    else Some(Member(at, NextOf(at, c), c.local, EndOf(c, l), NameAt(d, at, c.name)))
  }

  function MemberFrom(d: Directory, at: nat, c: Central): Option<Member>
    requires d.Valid()
  {
    if !CentralFits(d, at, c) then None else MemberOf(d, at, c, LocalAt(d.bytes, c.local))
  }

  function MemberAt(d: Directory, at: nat): Option<Member>
    requires d.Valid()
  {
    if at + 46 > d.end then None else MemberFrom(d, at, CentralAt(d.bytes, at))
  }

  /** A member lies before the directory, its header inside it, and both headers carry its name. */
  lemma MemberInBounds(d: Directory, at: nat, c: Central, l: Local)
    requires d.Valid() && CentralFits(d, at, c) && MemberOf(d, at, c, l).Some?
    ensures var m := MemberOf(d, at, c, l).value;
            m.at == at && at + 46 + |m.name| <= m.next <= d.end && 0 < |m.name| <= 4096
            && m.local + 30 + |m.name| <= m.end <= d.central
            && m.name == d.bytes[at + 46..at + 46 + |m.name|] == d.bytes[m.local + 30..m.local + 30 + |m.name|]
  {
  }

  /** The loop over a name: both headers spell it alike, and it is ASCII or not. */
  method CompareNames(bytes: Bytes, a: nat, b: nat, size: nat) returns (same: bool, ascii: bool)
    requires a + size <= |bytes| && b + size <= |bytes|
    ensures same <==> bytes[a..a + size] == bytes[b..b + size]
    ensures same ==> (ascii <==> IsAscii(bytes[a..a + size]))
  {
    ghost var x, y := bytes[a..a + size], bytes[b..b + size];
    ascii := true;
    for n := 0 to size
      invariant x[..n] == y[..n]
      invariant ascii <==> IsAscii(x[..n])
    {
      var point := bytes[a + n];
      assert x[n] == point && y[n] == bytes[b + n];
      PrefixGrows(x, n);
      PrefixGrows(y, n);
      if point != bytes[b + n] { return false, ascii; }
      assert IsAscii(x[..n + 1]) <==> IsAscii(x[..n]) && point <= 127 by { AsciiGrows(x[..n], point); }
      if point > 127 { ascii := false; }
    }
    assert x[..size] == x && y[..size] == y;
    return true, ascii;
  }

  lemma AsciiGrows(name: Bytes, point: Byte)
    ensures IsAscii(name + [point]) <==> IsAscii(name) && point <= 127
  {
    var all := name + [point];
    assert all[|name|] == point;
    if IsAscii(all) {
      forall i | 0 <= i < |name| ensures name[i] <= 127 { assert all[i] == name[i]; }
    }
  }

  method ReadLocal(d: Directory, at: nat, c: Central, l: Local) returns (member: Option<Member>, ascii: bool)
    requires d.Valid() && CentralFits(d, at, c)
    ensures member == MemberOf(d, at, c, l)
    ensures member.Some? ==> (ascii <==> IsAscii(member.value.name))
  {
    ascii := false;
    if !Agrees(c, l) || EndOf(c, l) > d.central { return None, ascii; }
    var same;
    same, ascii := CompareNames(d.bytes, at + 46, c.local + 30, c.name);
    if !same { return None, ascii; }
    return Some(Member(at, NextOf(at, c), c.local, EndOf(c, l), NameAt(d, at, c.name))), ascii;
  }

  method ReadCentral(d: Directory, at: nat, c: Central) returns (member: Option<Member>, ascii: bool)
    requires d.Valid()
    ensures member == MemberFrom(d, at, c)
    ensures member.Some? ==> (ascii <==> IsAscii(member.value.name))
  {
    if !CentralFits(d, at, c) { return None, false; }
    var l := LocalAt(d.bytes, c.local);
    member, ascii := ReadLocal(d, at, c, l);
  }

  /** One step of the directory loop; every header byte it reads is inside the file. */
  method ReadMember(d: Directory, at: nat) returns (member: Option<Member>, ascii: bool)
    requires d.Valid()
    ensures member == MemberAt(d, at)
    ensures member.Some? ==> (ascii <==> IsAscii(member.value.name))
  {
    if at + 46 > d.end { return None, false; }
    var c := CentralAt(d.bytes, at);
    member, ascii := ReadCentral(d, at, c);
  }
}
