/** Identifying a Word document by its ZIP directory. */
module WordContainer {
  import opened Wrappers
  import opened Octets
  import opened Sequences
  import opened Sorting
  import opened ZipHeaders

  /** "[Content_Types].xml" */
  const CONTENT_TYPES: Bytes := [
    0x5b, 0x43, 0x6f, 0x6e, 0x74, 0x65, 0x6e, 0x74, 0x5f, 0x54, 0x79, 0x70, 0x65, 0x73, 0x5d, 0x2e, 0x78, 0x6d, 0x6c]

  /** "word/document.xml" */
  const DOCUMENT: Bytes := [
    0x77, 0x6f, 0x72, 0x64, 0x2f, 0x64, 0x6f, 0x63, 0x75, 0x6d, 0x65, 0x6e, 0x74, 0x2e, 0x78, 0x6d, 0x6c]

  /** What stands at a place of the directory. */
  type Reader = nat -> Option<Member>

  function ReaderOf(d: Directory): Reader {
    (at: nat) => if d.Valid() then MemberAt(d, at) else None
  }

  // ---------------------------------------------------------------- chains

  /** `members` follow one another from `at`, header after header. */
  predicate Chain(read: Reader, at: nat, members: seq<Member>)
    decreases |members|
  {
    members == [] || (read(at) == Some(members[0]) && Chain(read, members[0].next, members[1..]))
  }

  function After(at: nat, members: seq<Member>): nat {
    if members == [] then at else members[|members| - 1].next
  }

  lemma {:induction false} ChainGrows(read: Reader, at: nat, members: seq<Member>, m: Member)
    requires Chain(read, at, members)
    ensures Chain(read, at, members + [m]) <==> read(After(at, members)) == Some(m)
    decreases |members|
  {
    if members == [] {
      assert members + [m] == [m] && [m][1..] == [];
    } else {
      assert (members + [m])[1..] == members[1..] + [m];
      assert After(members[0].next, members[1..]) == After(at, members);
      ChainGrows(read, members[0].next, members[1..], m);
    }
  }

  /** Two chains from one place agree as far as both go. */
  lemma {:induction false} ChainUnique(read: Reader, at: nat, a: seq<Member>, b: seq<Member>)
    requires Chain(read, at, a) && Chain(read, at, b) && |a| <= |b|
    ensures a == b[..|a|]
    decreases |a|
  {
    if a != [] {
      ChainUnique(read, a[0].next, a[1..], b[1..]);
      assert a == [a[0]] + a[1..] && b[..|a|] == [b[0]] + b[1..][..|a| - 1];
    }
  }

  /** Where a chain stops, no longer one goes on. */
  lemma ChainStops(read: Reader, at: nat, a: seq<Member>, b: seq<Member>)
    requires Chain(read, at, a) && Chain(read, at, b) && |a| < |b|
    ensures read(After(at, a)) == Some(b[|a|])
  {
    ChainUnique(read, at, a, b);
    ChainPrefix(read, at, b, |a| + 1);
    assert b[..|a| + 1] == a + [b[|a|]];
    ChainGrows(read, at, a, b[|a|]);
  }

  lemma {:induction false} ChainPrefix(read: Reader, at: nat, members: seq<Member>, n: nat)
    requires Chain(read, at, members) && n <= |members|
    ensures Chain(read, at, members[..n])
    decreases |members|
  {
    if n > 0 {
      assert members[..n][1..] == members[1..][..n - 1];
      ChainPrefix(read, members[0].next, members[1..], n - 1);
    }
  }

  // ---------------------------------------------------------------- acceptance

  predicate Apart(m: Member, n: Member) { m.end <= n.local || n.end <= m.local }

  ghost predicate Disjoint(members: seq<Member>) {
    forall i, j :: 0 <= i < j < |members| ==> Apart(members[i], members[j])
  }

  /** No two members of an ASCII name share it. */
  ghost predicate UniqueNames(members: seq<Member>) {
    forall i, j :: 0 <= i < j < |members| && IsAscii(members[i].name) ==> members[i].name != members[j].name
  }

  ghost predicate HasName(members: seq<Member>, name: Bytes) {
    exists i :: 0 <= i < |members| && members[i].name == name
  }

  /** The fields of the end record. */
  predicate EndFits(bytes: Bytes, end: nat)
    requires end + 22 <= |bytes|
  {
    U16(bytes, end + 4) == 0 && U16(bytes, end + 6) == 0
    && 2 <= U16(bytes, end + 10) <= 2000 && U16(bytes, end + 8) == U16(bytes, end + 10)
    && U32(bytes, end + 16) + U32(bytes, end + 12) == end
  }

  function DirectoryOf(bytes: Bytes, end: nat): Directory
    requires end + 22 <= |bytes|
  {
    Directory(bytes, U32(bytes, end + 16), end)
  }

  /** Members whose headers exactly fill the directory, disjoint, uniquely named, with both Word parts among them. */
  ghost predicate IsDirectory(read: Reader, central: nat, end: nat, count: nat, members: seq<Member>) {
    |members| == count && Chain(read, central, members) && After(central, members) == end
    && Disjoint(members) && UniqueNames(members) && HasName(members, CONTENT_TYPES) && HasName(members, DOCUMENT)
  }

  ghost predicate HasDirectory(read: Reader, central: nat, end: nat, count: nat) {
    exists members :: IsDirectory(read, central, end, count, members)
  }

  ghost predicate IsContainer(bytes: Bytes) {
    exists end ::
      IsLastEnd(bytes, end) && EndFits(bytes, end)
      && HasDirectory(ReaderOf(DirectoryOf(bytes, end)), U32(bytes, end + 16), end, U16(bytes, end + 10))
  }

  // ---------------------------------------------------------------- disjointness

  function KeyOfStart(): Member -> Key { (m: Member) => [m.local] }

  predicate NeighboursApart(sorted: seq<Member>) {
    forall i :: 0 < i < |sorted| ==> sorted[i - 1].end <= sorted[i].local
  }

  ghost predicate Occupied(members: seq<Member>) {
    forall i :: 0 <= i < |members| ==> members[i].local < members[i].end
  }

  lemma {:induction false} NeighboursChain(sorted: seq<Member>, i: nat, j: nat)
    requires NeighboursApart(sorted) && Occupied(sorted) && i < j < |sorted|
    ensures sorted[i].end <= sorted[j].local
    decreases j
  {
    if i < j - 1 {
      NeighboursChain(sorted, i, j - 1);
      assert sorted[j - 1].local < sorted[j - 1].end;
    }
  }

  lemma StartsInOrder(sorted: seq<Member>, i: nat, j: nat)
    requires Sorted(KeyOfStart(), sorted) && i < j < |sorted|
    ensures sorted[i].local <= sorted[j].local
  {
    var x, y := sorted[i].local, sorted[j].local;
    assert !Less(KeyOfStart()(sorted[j]), KeyOfStart()(sorted[i]));
    assert [y][1..] == [] && [x][1..] == [];
  }

  lemma SortedApart(sorted: seq<Member>)
    requires Sorted(KeyOfStart(), sorted) && Occupied(sorted)
    ensures NeighboursApart(sorted) <==> Disjoint(sorted)
  {
    if NeighboursApart(sorted) {
      forall i, j | 0 <= i < j < |sorted| ensures Apart(sorted[i], sorted[j]) { NeighboursChain(sorted, i, j); }
    }
    if Disjoint(sorted) {
      forall i | 0 < i < |sorted| ensures sorted[i - 1].end <= sorted[i].local {
        assert Apart(sorted[i - 1], sorted[i]);
        StartsInOrder(sorted, i - 1, i);
        assert sorted[i].local < sorted[i].end;
      }
    }
  }

  /** A pair of equal members is never apart, so disjointness speaks of distinct members and ignores order. */
  lemma DisjointPermutes(a: seq<Member>, b: seq<Member>)
    requires multiset(a) == multiset(b) && Occupied(a) && Disjoint(a)
    ensures Occupied(b) && Disjoint(b)
  {
    forall i, j | 0 <= i < j < |a| ensures a[i] != a[j] {
      assert Apart(a[i], a[j]);
      assert a[i].local < a[i].end;
    }
    DistinctPermutes(a, b);
    forall i | 0 <= i < |b| ensures b[i].local < b[i].end { var k := Place(a, b, i); }
    forall i, j | 0 <= i < j < |b| ensures Apart(b[i], b[j]) {
      var k := Place(a, b, i);
      var l := Place(a, b, j);
      assert b[i] != b[j];
      if k < l { assert Apart(a[k], a[l]); } else { assert Apart(a[l], a[k]); }
    }
  }

  lemma Place(a: seq<Member>, b: seq<Member>, i: nat) returns (k: nat)
    requires multiset(a) == multiset(b) && i < |b|
    ensures k < |a| && a[k] == b[i]
  {
    assert b[i] in multiset(a);
    k :| 0 <= k < |a| && a[k] == b[i];
  }

  /** The sort by start and the check of neighbours decide disjointness of all pairs. */
  lemma NeighboursDecide(members: seq<Member>)
    requires Occupied(members)
    ensures NeighboursApart(Sort(KeyOfStart(), members)) <==> Disjoint(members)
  {
    var sorted := Sort(KeyOfStart(), members);
    SortPermutes(KeyOfStart(), members);
    SortSorts(KeyOfStart(), members);
    forall i | 0 <= i < |sorted| ensures sorted[i].local < sorted[i].end { var k := Place(members, sorted, i); }
    SortedApart(sorted);
    if Disjoint(members) { DisjointPermutes(members, sorted); }
    if Disjoint(sorted) { DisjointPermutes(sorted, members); }
  }

  // ---------------------------------------------------------------- the recogniser

  /** What the directory loop has established of the members before `at`. */
  ghost predicate Walked(read: Reader, central: nat, at: nat, members: seq<Member>, names: set<Bytes>, types: bool, document: bool) {
    Chain(read, central, members) && at == After(central, members) && Occupied(members) && UniqueNames(members)
    && (forall x :: x in names <==> IsAscii(x) && HasName(members, x))
    && (types <==> HasName(members, CONTENT_TYPES)) && (document <==> HasName(members, DOCUMENT))
  }

  lemma NamesGrow(members: seq<Member>, m: Member, name: Bytes)
    ensures HasName(members + [m], name) <==> HasName(members, name) || m.name == name
  {
    var all := members + [m];
    if HasName(members, name) {
      var i :| 0 <= i < |members| && members[i].name == name;
      assert all[i].name == name;
    }
    if m.name == name { assert all[|members|].name == name; }
  }

  lemma UniqueGrows(members: seq<Member>, m: Member)
    requires UniqueNames(members)
    ensures UniqueNames(members + [m]) <==> !(IsAscii(m.name) && HasName(members, m.name))
  {
    var all := members + [m];
    if IsAscii(m.name) && HasName(members, m.name) {
      var i :| 0 <= i < |members| && members[i].name == m.name;
      assert all[i].name == all[|members|].name;
    } else {
      forall i, j | 0 <= i < j < |all| && IsAscii(all[i].name) ensures all[i].name != all[j].name {
        if j < |members| { assert members[i].name != members[j].name; }
      }
    }
  }

  lemma WalkStep(read: Reader, central: nat, at: nat, members: seq<Member>, names: set<Bytes>, types: bool, document: bool, m: Member)
    requires Walked(read, central, at, members, names, types, document)
    requires read(at) == Some(m) && m.local < m.end && !(IsAscii(m.name) && m.name in names)
    ensures Walked(read, central, m.next, members + [m], if IsAscii(m.name) then names + {m.name} else names,
                   types || m.name == CONTENT_TYPES, document || m.name == DOCUMENT)
  {
    ChainGrows(read, central, members, m);
    UniqueGrows(members, m);
    NamesGrow(members, m, CONTENT_TYPES);
    NamesGrow(members, m, DOCUMENT);
    var more := if IsAscii(m.name) then names + {m.name} else names;
    forall x ensures x in more <==> IsAscii(x) && HasName(members + [m], x) { NamesGrow(members, m, x); }
  }

  /** A directory of `count` members is the chain that starts where it does. */
  lemma OneDirectory(read: Reader, central: nat, end: nat, count: nat, members: seq<Member>)
    requires Chain(read, central, members) && |members| == count
    ensures HasDirectory(read, central, end, count) <==> IsDirectory(read, central, end, count, members)
  {
    forall all | IsDirectory(read, central, end, count, all) ensures all == members {
      ChainUnique(read, central, members, all);
    }
  }

  lemma StopsShort(read: Reader, central: nat, end: nat, count: nat, members: seq<Member>)
    requires Chain(read, central, members) && |members| < count && read(After(central, members)).None?
    ensures !HasDirectory(read, central, end, count)
  {
    forall all ensures !IsDirectory(read, central, end, count, all) {
      if |all| == count && Chain(read, central, all) { ChainStops(read, central, members, all); }
    }
  }

  lemma Repeats(read: Reader, central: nat, end: nat, count: nat, members: seq<Member>)
    requires Chain(read, central, members) && |members| <= count && !UniqueNames(members)
    ensures !HasDirectory(read, central, end, count)
  {
    forall all ensures !IsDirectory(read, central, end, count, all) {
      if |all| == count && Chain(read, central, all) {
        ChainUnique(read, central, members, all);
        if UniqueNames(all) { PrefixUnique(all, |members|); }
      }
    }
  }

  lemma PrefixUnique(all: seq<Member>, n: nat)
    requires n <= |all| && UniqueNames(all)
    ensures UniqueNames(all[..n])
  {
  }

  lemma MemberOccupies(d: Directory, at: nat)
    requires d.Valid() && MemberAt(d, at).Some?
    ensures MemberAt(d, at).value.local < MemberAt(d, at).value.end
  {
    var c := CentralAt(d.bytes, at);
    MemberInBounds(d, at, c, LocalAt(d.bytes, c.local));
  }

  /** The loop over the central directory and the check of the ranges it collected. */
  method WalkDirectory(d: Directory, count: nat) returns (ok: bool)
    requires d.Valid()
    ensures ok <==> HasDirectory(ReaderOf(d), d.central, d.end, count)
  {
    ghost var read := ReaderOf(d);
    var at, types, document := d.central, false, false;
    var names: set<Bytes>, ranges: seq<Member> := {}, [];
    for entry := 0 to count
      invariant |ranges| == entry && Walked(read, d.central, at, ranges, names, types, document)
    {
      var member, ascii := ReadMember(d, at);
      assert read(at) == member;
      if member.None? {
        StopsShort(read, d.central, d.end, count, ranges);
        return false;
      }
      var m := member.value;
      MemberOccupies(d, at);
      if ascii && m.name in names {
        ChainGrows(read, d.central, ranges, m);
        UniqueGrows(ranges, m);
        Repeats(read, d.central, d.end, count, ranges + [m]);
        return false;
      }
      WalkStep(read, d.central, at, ranges, names, types, document, m);
      if ascii { names := names + {m.name}; }
      types, document := types || m.name == CONTENT_TYPES, document || m.name == DOCUMENT;
      ranges := ranges + [m];
      at := m.next;
    }
    OneDirectory(read, d.central, d.end, count, ranges);
    NeighboursDecide(ranges);
    ok := NeighboursApart(Sort(KeyOfStart(), ranges)) && at == d.end && types && document;
  }

  lemma OneLastEnd(bytes: Bytes, a: int, b: int)
    requires IsLastEnd(bytes, a) && IsLastEnd(bytes, b)
    ensures a == b
  {
  }

  lemma ContainerAt(bytes: Bytes, end: nat)
    requires IsLastEnd(bytes, end)
    ensures IsContainer(bytes) <==>
            EndFits(bytes, end)
            && HasDirectory(ReaderOf(DirectoryOf(bytes, end)), U32(bytes, end + 16), end, U16(bytes, end + 10))
  {
    forall other | IsLastEnd(bytes, other) ensures other == end { OneLastEnd(bytes, other, end); }
  }

  /** isWordDocumentContainer accepts exactly the containers. */
  method IsWordDocumentContainer(bytes: Bytes) returns (ok: bool)
    ensures ok <==> IsContainer(bytes)
  {
    var end := FindEnd(bytes);
    if end < 0 { return false; }
    ContainerAt(bytes, end);
    if !EndFits(bytes, end) { return false; }
    var d := DirectoryOf(bytes, end);
    ok := WalkDirectory(d, U16(bytes, end + 10));
  }

  // ---------------------------------------------------------------- what acceptance means

  function Extent(): Member -> int { (m: Member) => m.end - m.local }

  lemma {:induction false} ExtentsBelow(sorted: seq<Member>, central: nat)
    requires NeighboursApart(sorted) && Occupied(sorted)
    requires forall i :: 0 <= i < |sorted| ==> sorted[i].end <= central
    ensures sorted != [] ==> Sum(Extent(), sorted) <= central - sorted[0].local
  {
    if |sorted| > 1 {
      var rest := sorted[1..];
      forall i | 0 < i < |rest| ensures rest[i - 1].end <= rest[i].local { assert sorted[i].end <= sorted[i + 1].local; }
      ExtentsBelow(rest, central);
      assert sorted[0].end <= sorted[1].local;
    } else if sorted != [] {
      assert sorted[1..] == [];
      assert Sum(Extent(), sorted[1..]) == 0;
    }
  }

  lemma {:induction false} ChainMember(read: Reader, at: nat, members: seq<Member>, i: nat)
    requires Chain(read, at, members) && i < |members|
    ensures exists k :: read(k) == Some(members[i])
    decreases i
  {
    if i > 0 { ChainMember(read, members[0].next, members[1..], i - 1); }
  }

  /**
   * The members of an accepted file lie before its directory without sharing
   * a byte: together they are no longer than what precedes it.
   */
  lemma MembersFitBeforeDirectory(d: Directory, count: nat, members: seq<Member>)
    requires d.Valid() && IsDirectory(ReaderOf(d), d.central, d.end, count, members)
    ensures Sum(Extent(), members) <= d.central
  {
    forall i | 0 <= i < |members| ensures members[i].local < members[i].end <= d.central {
      ChainMember(ReaderOf(d), d.central, members, i);
      var k :| ReaderOf(d)(k) == Some(members[i]);
      var c := CentralAt(d.bytes, k);
      MemberInBounds(d, k, c, LocalAt(d.bytes, c.local));
    }
    var sorted := Sort(KeyOfStart(), members);
    NeighboursDecide(members);
    SortPermutes(KeyOfStart(), members);
    SumPermutes(Extent(), members, sorted);
    forall i | 0 <= i < |sorted| ensures sorted[i].local < sorted[i].end <= d.central { var k := Place(members, sorted, i); }
    ExtentsBelow(sorted, d.central);
  }
}
