/** The canonical text names a value up to key order. */
module JsonCanonical {
  import opened Wrappers
  import opened Sequences
  import opened Sorting
  import opened Json
  import opened JsonParser
  import opened JsonRoundTrip

  /** The value with its members sorted at every level. */
  function Norm(v: Json): Json
    decreases v, 1
  {
    match v
    case Array(items) => Array(NormAll(items))
    case Object(members) => Object(Sort(KeyOfMember(), NormMembers(members)))
    case _ => v
  }

  function NormAll(items: seq<Json>): (r: seq<Json>)
    ensures |r| == |items|
    decreases items, 0
  {
    if items == [] then [] else [Norm(items[0])] + NormAll(items[1..])
  }

  function NormMembers(members: seq<Member>): (r: seq<Member>)
    ensures |r| == |members|
    ensures forall i :: 0 <= i < |members| ==> r[i].key == members[i].key
    decreases members, 0
  {
    if members == [] then [] else [Member(members[0].key, Norm(members[0].value))] + NormMembers(members[1..])
  }

  lemma {:induction false} NormMembersAt(members: seq<Member>, i: nat)
    requires i < |members|
    ensures NormMembers(members)[i].value == Norm(members[i].value)
  {
    if i > 0 { NormMembersAt(members[1..], i - 1); }
  }

  // ---------------------------------------------------------------- the printer

  function StringifyMember(): Member -> Printed { (m: Member) => Printed(m.key, Stringify(m.value)) }

  lemma {:induction false} StringifyMembersMaps(members: seq<Member>)
    ensures StringifyMembers(members) == Map(PrintedMember(), Map(StringifyMember(), members))
  {
    if members != [] {
      StringifyMembersMaps(members[1..]);
      assert Map(StringifyMember(), members)[1..] == Map(StringifyMember(), members[1..]);
    }
  }

  /** The canonical text is what JSON.stringify prints once every object is sorted. */
  lemma {:induction false} PrintIsSortedStringify(v: Json)
    ensures Print(v) == Stringify(Norm(v))
    decreases v, 1
  {
    match v
    case Array(items) => PrintAllNorm(items);
    case Object(members) =>
      var normed := NormMembers(members);
      PrintMembersNorm(members);
      SortMap(KeyOfMember(), KeyOfPrinted(), StringifyMember(), normed);
      StringifyMembersMaps(Sort(KeyOfMember(), normed));
    case _ =>
  }

  lemma {:induction false} PrintAllNorm(items: seq<Json>)
    ensures PrintAll(items) == StringifyAll(NormAll(items))
    decreases items, 0
  {
    if items != [] {
      PrintIsSortedStringify(items[0]);
      PrintAllNorm(items[1..]);
    }
  }

  lemma {:induction false} PrintMembersNorm(members: seq<Member>)
    ensures PrintMembers(members) == Map(StringifyMember(), NormMembers(members))
    decreases members, 0
  {
    if members != [] {
      PrintIsSortedStringify(members[0].value);
      PrintMembersNorm(members[1..]);
      assert NormMembers(members)[1..] == NormMembers(members[1..]);
    }
  }

  // ---------------------------------------------------------------- quantified forms

  lemma {:induction false} WellFormedMembersEach(numerals: Numerals, members: seq<Member>)
    ensures WellFormedMembers(numerals, members) <==> forall m :: m in members ==> WellFormed(numerals, m.value)
  {
    if members != [] {
      WellFormedMembersEach(numerals, members[1..]);
      assert members == [members[0]] + members[1..];
    }
  }

  lemma {:induction false} ScalarMembersEach(members: seq<Member>)
    ensures ScalarMembers(members) <==> forall m :: m in members ==> Scalar(m.key) && AllScalar(m.value)
  {
    if members != [] {
      ScalarMembersEach(members[1..]);
      assert members == [members[0]] + members[1..];
    }
  }

  lemma {:induction false} DepthMembersEach(members: seq<Member>, n: nat)
    ensures DepthMembers(members) <= n <==> forall m :: m in members ==> Depth(m.value) <= n
  {
    if members != [] {
      DepthMembersEach(members[1..], n);
      assert members == [members[0]] + members[1..];
    }
  }

  lemma SameKeysSeparate(members: seq<Member>)
    requires Distinct(Map(Keys(), members))
    ensures Separates(KeyOfMember(), members) && Distinct(members)
  {
    forall i, j | 0 <= i < |members| && 0 <= j < |members| && members[i].key == members[j].key
      ensures members[i] == members[j]
    {
      DistinctAt(Map(Keys(), members), i, j);
    }
    forall i, j | 0 <= i < j < |members| ensures members[i] != members[j] {
      assert Map(Keys(), members)[i] != Map(Keys(), members)[j];
    }
  }

  lemma NormKeys(members: seq<Member>)
    ensures Map(Keys(), NormMembers(members)) == Map(Keys(), members)
  {
  }

  // ---------------------------------------------------------------- normal forms

  lemma {:induction false} NormWellFormed(numerals: Numerals, v: Json)
    requires WellFormed(numerals, v)
    ensures WellFormed(numerals, Norm(v))
    decreases v, 1
  {
    match v
    case Array(items) => NormAllWellFormed(numerals, items);
    case Object(members) =>
      var normed := NormMembers(members);
      var sorted := Sort(KeyOfMember(), normed);
      NormMembersWellFormed(numerals, members);
      NormKeys(members);
      SortPermutes(KeyOfMember(), normed);
      MapPermutes(Keys(), normed, sorted);
      DistinctPermutes(Map(Keys(), normed), Map(Keys(), sorted));
      SortMembers(KeyOfMember(), normed);
      WellFormedMembersEach(numerals, normed);
      WellFormedMembersEach(numerals, sorted);
    case _ =>
  }

  lemma {:induction false} NormAllWellFormed(numerals: Numerals, items: seq<Json>)
    requires WellFormedAll(numerals, items)
    ensures WellFormedAll(numerals, NormAll(items))
    decreases items, 0
  {
    if items != [] {
      NormWellFormed(numerals, items[0]);
      NormAllWellFormed(numerals, items[1..]);
      assert NormAll(items)[1..] == NormAll(items[1..]);
    }
  }

  lemma {:induction false} NormMembersWellFormed(numerals: Numerals, members: seq<Member>)
    requires WellFormedMembers(numerals, members)
    ensures WellFormedMembers(numerals, NormMembers(members))
    decreases members, 0
  {
    if members != [] {
      NormWellFormed(numerals, members[0].value);
      NormMembersWellFormed(numerals, members[1..]);
      assert NormMembers(members)[1..] == NormMembers(members[1..]);
    }
  }

  /** Sorting moves no value to another depth. */
  lemma {:induction false} NormDepth(v: Json, n: nat)
    ensures Depth(Norm(v)) <= n <==> Depth(v) <= n
    decreases v, 1
  {
    match v
    case Array(items) =>
      if items != [] && n > 0 { NormAllDepth(items, n - 1); }
    case Object(members) =>
      if members != [] {
        var normed := NormMembers(members);
        SortPermutes(KeyOfMember(), normed);
        if n > 0 {
          NormMembersDepth(members, n - 1);
          SortMembers(KeyOfMember(), normed);
          DepthMembersEach(normed, n - 1);
          DepthMembersEach(Sort(KeyOfMember(), normed), n - 1);
        }
      }
    case _ =>
  }

  lemma {:induction false} NormAllDepth(items: seq<Json>, n: nat)
    ensures DepthAll(NormAll(items)) <= n <==> DepthAll(items) <= n
    decreases items, 0
  {
    if items != [] {
      NormDepth(items[0], n);
      NormAllDepth(items[1..], n);
      assert NormAll(items)[1..] == NormAll(items[1..]);
    }
  }

  lemma {:induction false} NormMembersDepth(members: seq<Member>, n: nat)
    ensures DepthMembers(NormMembers(members)) <= n <==> DepthMembers(members) <= n
    decreases members, 0
  {
    if members != [] {
      NormDepth(members[0].value, n);
      NormMembersDepth(members[1..], n);
      assert NormMembers(members)[1..] == NormMembers(members[1..]);
    }
  }

  lemma {:induction false} NormScalar(v: Json)
    ensures AllScalar(Norm(v)) <==> AllScalar(v)
    decreases v, 1
  {
    match v
    case Array(items) => NormAllScalar(items);
    case Object(members) =>
      var normed := NormMembers(members);
      NormMembersScalar(members);
      SortMembers(KeyOfMember(), normed);
      ScalarMembersEach(normed);
      ScalarMembersEach(Sort(KeyOfMember(), normed));
    case _ =>
  }

  lemma {:induction false} NormAllScalar(items: seq<Json>)
    ensures ScalarAll(NormAll(items)) <==> ScalarAll(items)
    decreases items, 0
  {
    if items != [] {
      NormScalar(items[0]);
      NormAllScalar(items[1..]);
      assert NormAll(items)[1..] == NormAll(items[1..]);
    }
  }

  lemma {:induction false} NormMembersScalar(members: seq<Member>)
    ensures ScalarMembers(NormMembers(members)) <==> ScalarMembers(members)
    decreases members, 0
  {
    if members != [] {
      NormScalar(members[0].value);
      NormMembersScalar(members[1..]);
      assert NormMembers(members)[1..] == NormMembers(members[1..]);
    }
  }

  // ---------------------------------------------------------------- meanings

  lemma {:induction false} MeanKeys(members: seq<Member>, k: Text)
    ensures k in MeanMembers(members) <==> exists m :: m in members && m.key == k
  {
    if members != [] {
      MeanKeys(members[1..], k);
      assert members == [members[0]] + members[1..];
      if k in MeanMembers(members[1..]) {
        var m :| m in members[1..] && m.key == k;
        assert m in members;
      }
      if k == members[0].key { assert members[0] in members; }
    }
  }

  lemma {:induction false} MeanAt(members: seq<Member>, m: Member)
    requires Distinct(Map(Keys(), members)) && m in members
    ensures m.key in MeanMembers(members) && MeanMembers(members)[m.key] == Mean(m.value)
  {
    MeanKeys(members, m.key);
    assert Map(Keys(), members)[1..] == Map(Keys(), members[1..]);
    DistinctParts([members[0].key], Map(Keys(), members[1..]));
    assert Map(Keys(), members) == [members[0].key] + Map(Keys(), members[1..]);
    if m == members[0] {
      MeanKeys(members[1..], m.key);
      if m.key in MeanMembers(members[1..]) {
        var n :| n in members[1..] && n.key == m.key;
        var j :| 0 <= j < |members[1..]| && members[1..][j] == n;
      }
    } else {
      MeanAt(members[1..], m);
    }
  }

  /** The member of `members` that `key` names. */
  lemma MemberOf(members: seq<Member>, key: Text) returns (m: Member)
    requires Distinct(Map(Keys(), members)) && key in MeanMembers(members)
    ensures m in members && m.key == key && MeanMembers(members)[key] == Mean(m.value)
  {
    MeanKeys(members, key);
    m :| m in members && m.key == key;
    MeanAt(members, m);
  }

  lemma NormMemberOf(members: seq<Member>, m: Member)
    requires m in members
    ensures Member(m.key, Norm(m.value)) in NormMembers(members)
  {
    var i :| 0 <= i < |members| && members[i] == m;
    NormMembersAt(members, i);
    assert NormMembers(members)[i] == Member(m.key, Norm(m.value));
  }

  lemma NormedFrom(members: seq<Member>, n: Member) returns (m: Member)
    requires n in NormMembers(members)
    ensures m in members && n == Member(m.key, Norm(m.value))
  {
    var i :| 0 <= i < |members| && NormMembers(members)[i] == n;
    NormMembersAt(members, i);
    m := members[i];
  }

  lemma NormedKeys(members: seq<Member>)
    requires Distinct(Map(Keys(), members))
    ensures Distinct(Map(Keys(), NormMembers(members)))
    ensures Distinct(Map(Keys(), Sort(KeyOfMember(), NormMembers(members))))
  {
    var normed := NormMembers(members);
    NormKeys(members);
    SortPermutes(KeyOfMember(), normed);
    MapPermutes(Keys(), normed, Sort(KeyOfMember(), normed));
    DistinctPermutes(Map(Keys(), normed), Map(Keys(), Sort(KeyOfMember(), normed)));
  }

  /** Sorting changes no meaning. */
  lemma {:induction false} NormMeans(numerals: Numerals, v: Json)
    requires WellFormed(numerals, v)
    ensures Mean(Norm(v)) == Mean(v)
    decreases v, 1
  {
    match v
    case Array(items) => NormAllMeans(numerals, items);
    case Object(members) =>
      var sorted := Sort(KeyOfMember(), NormMembers(members));
      NormedKeys(members);
      WellFormedMembersEach(numerals, members);
      forall k ensures k in MeanMembers(sorted) <==> k in MeanMembers(members) { SortedKey(members, k); }
      forall k | k in MeanMembers(members) ensures MeanMembers(sorted)[k] == MeanMembers(members)[k] {
        var m := MemberOf(members, k);
        NormMeans(numerals, m.value);
        SortedMember(members, m);
        MeanAt(sorted, Member(k, Norm(m.value)));
      }
      assert MeanMembers(sorted) == MeanMembers(members);
    case _ =>
  }

  lemma SortedMember(members: seq<Member>, m: Member)
    requires m in members
    ensures Member(m.key, Norm(m.value)) in Sort(KeyOfMember(), NormMembers(members))
  {
    NormMemberOf(members, m);
    SortMembers(KeyOfMember(), NormMembers(members));
  }

  lemma SortedKey(members: seq<Member>, k: Text)
    ensures k in MeanMembers(Sort(KeyOfMember(), NormMembers(members))) <==> k in MeanMembers(members)
  {
    var sorted := Sort(KeyOfMember(), NormMembers(members));
    MeanKeys(sorted, k);
    MeanKeys(members, k);
    SortMembers(KeyOfMember(), NormMembers(members));
    if k in MeanMembers(sorted) {
      var n :| n in sorted && n.key == k;
      var m := NormedFrom(members, n);
    }
    if k in MeanMembers(members) {
      var m :| m in members && m.key == k;
      SortedMember(members, m);
    }
  }

  lemma {:induction false} NormAllMeans(numerals: Numerals, items: seq<Json>)
    requires WellFormedAll(numerals, items)
    ensures MeanAll(NormAll(items)) == MeanAll(items)
    decreases items, 0
  {
    if items != [] {
      NormMeans(numerals, items[0]);
      NormAllMeans(numerals, items[1..]);
      assert NormAll(items)[1..] == NormAll(items[1..]);
    }
  }

  /** Values of one meaning have one normal form. */
  lemma {:induction false} SameMeaning(numerals: Numerals, v: Json, w: Json)
    requires WellFormed(numerals, v) && WellFormed(numerals, w) && Mean(v) == Mean(w)
    ensures Norm(v) == Norm(w)
    decreases v, 1
  {
    match v
    case Array(items) => SameMeaningAll(numerals, items, w.items);
    case Object(members) =>
      var a, b := NormMembers(members), NormMembers(w.members);
      NormedKeys(members);
      NormedKeys(w.members);
      SameKeysSeparate(a);
      SameKeysSeparate(b);
      SameMeaningMembers(numerals, members, w.members);
      SameMembers(a, b);
      SortForgetsOrder(KeyOfMember(), a, b);
    case _ =>
  }

  lemma {:induction false} SameMeaningAll(numerals: Numerals, items: seq<Json>, others: seq<Json>)
    requires WellFormedAll(numerals, items) && WellFormedAll(numerals, others) && MeanAll(items) == MeanAll(others)
    ensures NormAll(items) == NormAll(others)
    decreases items, 0
  {
    assert |items| == |MeanAll(items)| == |others|;
    if items != [] {
      assert MeanAll(items)[0] == Mean(items[0]) && MeanAll(others)[0] == Mean(others[0]);
      assert MeanAll(items)[1..] == MeanAll(items[1..]) && MeanAll(others)[1..] == MeanAll(others[1..]);
      SameMeaning(numerals, items[0], others[0]);
      SameMeaningAll(numerals, items[1..], others[1..]);
    }
  }

  lemma {:induction false} SameMeaningMembers(numerals: Numerals, members: seq<Member>, others: seq<Member>)
    requires WellFormed(numerals, Object(members)) && WellFormed(numerals, Object(others))
    requires MeanMembers(members) == MeanMembers(others)
    ensures forall n :: n in NormMembers(members) <==> n in NormMembers(others)
    decreases members, 0
  {
    WellFormedMembersEach(numerals, members);
    WellFormedMembersEach(numerals, others);
    forall n ensures n in NormMembers(members) <==> n in NormMembers(others) {
      if n in NormMembers(members) {
        var m := NormedFrom(members, n);
        MeanAt(members, m);
        var o := MemberOf(others, m.key);
        SameMeaning(numerals, m.value, o.value);
        NormMemberOf(others, o);
      }
      if n in NormMembers(others) {
        var o := NormedFrom(others, n);
        MeanAt(others, o);
        var m := MemberOf(members, o.key);
        SameMeaning(numerals, m.value, o.value);
        NormMemberOf(members, m);
      }
    }
  }

  // ---------------------------------------------------------------- main results

  /** Parsing the canonical text gives back the value up to the order of keys. */
  lemma PrintRoundTrip(numerals: Numerals, v: Json)
    requires WellFormed(numerals, v)
    ensures Parse(numerals, Print(v)) == Some(Norm(v)) && Mean(Norm(v)) == Mean(v)
  {
    NormWellFormed(numerals, v);
    PrintIsSortedStringify(v);
    StringifyRoundTrip(numerals, Norm(v));
    NormMeans(numerals, v);
  }

  /** Two values print the same exactly when they are equal up to the order of keys. */
  lemma PrintSeparatesMeanings(numerals: Numerals, v: Json, w: Json)
    requires WellFormed(numerals, v) && WellFormed(numerals, w)
    ensures Print(v) == Print(w) <==> Mean(v) == Mean(w)
  {
    PrintIsSortedStringify(v);
    PrintIsSortedStringify(w);
    if Mean(v) == Mean(w) { SameMeaning(numerals, v, w); }
    PrintRoundTrip(numerals, v);
    PrintRoundTrip(numerals, w);
  }

  lemma CanonicalOfNorm(numerals: Numerals, v: Json)
    requires WellFormed(numerals, v)
    ensures CanonicalJson(Norm(v)) == CanonicalJson(v)
  {
    NormWellFormed(numerals, v);
    NormMeans(numerals, v);
    PrintSeparatesMeanings(numerals, v, Norm(v));
    NormDepth(v, MAXIMUM_DEPTH);
    NormScalar(v);
  }

  /** Every text the printer prints is accepted, as the sorted value. */
  lemma AcceptsPrinted(numerals: Numerals, v: Json, raw: Text)
    requires WellFormed(numerals, v) && CanonicalJson(v) == Some(raw)
    ensures ParseCanonical(numerals, raw) == Some(Norm(v))
  {
    PrintRoundTrip(numerals, v);
    CanonicalOfNorm(numerals, v);
    PrintIsSortedStringify(v);
    NormWellFormed(numerals, v);
    NotByteOrderMark(numerals, Norm(v));
  }

  lemma NotByteOrderMark(numerals: Numerals, v: Json)
    requires WellFormed(numerals, v)
    ensures Stringify(v) != [] && Stringify(v)[0] != BYTE_ORDER_MARK
  {
    if v.Number? { NumberStarts(v.token); }
  }
}
