/**
 * canonicalize as it runs: a recursion over objects in memory, which may be
 * shared or cyclic, with a set of the objects it is inside of.
 */
module JsonGraph {
  import opened Wrappers
  import opened Sequences
  import opened Sorting
  import opened Json

  type Ref = nat

  datatype Entry = Entry(key: Text, ref: Ref)

  /** What a reference denotes; an empty slot is a hole in a sparse array. */
  datatype Node =
    | Plain(v: Json)
    | Foreign
    | List(slots: seq<Option<Ref>>)
    | Record(entries: seq<Entry>)

  type Heap = map<Ref, Node>

  predicate IsPlain(v: Json) { !v.Array? && !v.Object? }

  /** The references a node holds. */
  predicate Edge(heap: Heap, a: Ref, b: Ref) {
    a in heap &&
    match heap[a]
    case List(slots) => Some(b) in slots
    case Record(entries) => exists i :: 0 <= i < |entries| && entries[i].ref == b
    case _ => false
  }

  ghost predicate Closed(heap: Heap) {
    (forall a, b :: Edge(heap, a, b) ==> b in heap)
    && forall a :: a in heap && heap[a].Plain? ==> IsPlain(heap[a].v)
  }

  /** `v` is the tree that `r` denotes when every reference is followed. */
  ghost predicate Unfolds(heap: Heap, r: Ref, v: Json)
    decreases v
  {
    r in heap &&
    match heap[r]
    case Plain(w) => v == w
    case Foreign => false
    case List(slots) =>
      v.Array? && |v.items| == |slots|
      && forall i :: 0 <= i < |slots| ==> slots[i].Some? && Unfolds(heap, slots[i].value, v.items[i])
    case Record(entries) =>
      v.Object? && |v.members| == |entries|
      && forall i :: 0 <= i < |entries| ==>
                       v.members[i].key == entries[i].key && Unfolds(heap, entries[i].ref, v.members[i].value)
  }

  // ---------------------------------------------------------------- bounded unfolding

  /** The tree `r` denotes if it nests less than `fuel` deep. */
  function Tree(heap: Heap, r: Ref, fuel: nat): Option<Json>
    decreases fuel, 1
  {
    if fuel == 0 || r !in heap then None
    else
      match heap[r]
      case Plain(v) => Some(v)
      case Foreign => None
      case List(slots) =>
        var items := TreeAll(heap, slots, fuel - 1);
        if items.Some? then Some(Array(items.value)) else None
      case Record(entries) =>
        var members := TreeEntries(heap, entries, fuel - 1);
        if members.Some? then Some(Object(members.value)) else None
  }

  function TreeAll(heap: Heap, slots: seq<Option<Ref>>, fuel: nat): (r: Option<seq<Json>>)
    ensures r.Some? ==> |r.value| == |slots|
    decreases fuel, 2, |slots|
  {
    if slots == [] then Some([])
    else if slots[0].None? then None
    else
      var first, more := Tree(heap, slots[0].value, fuel), TreeAll(heap, slots[1..], fuel);
      if first.Some? && more.Some? then Some([first.value] + more.value) else None
  }

  function TreeEntries(heap: Heap, entries: seq<Entry>, fuel: nat): (r: Option<seq<Member>>)
    ensures r.Some? ==> |r.value| == |entries|
    decreases fuel, 2, |entries|
  {
    if entries == [] then Some([])
    else
      var first, more := Tree(heap, entries[0].ref, fuel), TreeEntries(heap, entries[1..], fuel);
      if first.Some? && more.Some? then Some([Member(entries[0].key, first.value)] + more.value) else None
  }

  lemma {:induction false} TreeUnfolds(heap: Heap, r: Ref, fuel: nat)
    requires Closed(heap) && Tree(heap, r, fuel).Some?
    ensures Unfolds(heap, r, Tree(heap, r, fuel).value) && Depth(Tree(heap, r, fuel).value) < fuel
    decreases fuel, 1
  {
    match heap[r]
    case List(slots) => TreeAllUnfolds(heap, slots, fuel - 1);
    case Record(entries) => TreeEntriesUnfold(heap, entries, fuel - 1);
    case _ =>
  }

  lemma {:induction false} TreeAllUnfolds(heap: Heap, slots: seq<Option<Ref>>, fuel: nat)
    requires Closed(heap) && TreeAll(heap, slots, fuel).Some?
    ensures forall i :: 0 <= i < |slots| ==>
                          slots[i].Some? && Unfolds(heap, slots[i].value, TreeAll(heap, slots, fuel).value[i])
    ensures slots != [] ==> DepthAll(TreeAll(heap, slots, fuel).value) < fuel
    decreases fuel, 2, |slots|
  {
    if slots != [] {
      var more := TreeAll(heap, slots[1..], fuel).value;
      TreeUnfolds(heap, slots[0].value, fuel);
      TreeAllUnfolds(heap, slots[1..], fuel);
      assert TreeAll(heap, slots, fuel).value[1..] == more;
      forall i | 0 <= i < |slots|
        ensures slots[i].Some? && Unfolds(heap, slots[i].value, TreeAll(heap, slots, fuel).value[i])
      {
        if i > 0 { assert slots[1..][i - 1].Some? && Unfolds(heap, slots[1..][i - 1].value, more[i - 1]); }
      }
    }
  }

  lemma {:induction false} TreeEntriesUnfold(heap: Heap, entries: seq<Entry>, fuel: nat)
    requires Closed(heap) && TreeEntries(heap, entries, fuel).Some?
    ensures forall i :: 0 <= i < |entries| ==>
                          TreeEntries(heap, entries, fuel).value[i].key == entries[i].key
                          && Unfolds(heap, entries[i].ref, TreeEntries(heap, entries, fuel).value[i].value)
    ensures entries != [] ==> DepthMembers(TreeEntries(heap, entries, fuel).value) < fuel
    decreases fuel, 2, |entries|
  {
    if entries != [] {
      var all, more := TreeEntries(heap, entries, fuel).value, TreeEntries(heap, entries[1..], fuel).value;
      TreeUnfolds(heap, entries[0].ref, fuel);
      TreeEntriesUnfold(heap, entries[1..], fuel);
      assert all[1..] == more;
      forall i | 0 <= i < |entries|
        ensures all[i].key == entries[i].key && Unfolds(heap, entries[i].ref, all[i].value)
      {
        if i > 0 { assert entries[1..][i - 1] == entries[i] && all[i] == more[i - 1]; }
      }
    }
  }

  lemma {:induction false} UnfoldsTree(heap: Heap, r: Ref, v: Json, fuel: nat)
    requires Closed(heap) && Unfolds(heap, r, v) && Depth(v) < fuel
    ensures Tree(heap, r, fuel) == Some(v)
    decreases fuel, 1
  {
    match heap[r]
    case List(slots) => if slots != [] { UnfoldsTreeAll(heap, slots, v.items, fuel - 1); }
    case Record(entries) => if entries != [] { UnfoldsTreeEntries(heap, entries, v.members, fuel - 1); }
    case _ =>
  }

  lemma {:induction false} UnfoldsTreeAll(heap: Heap, slots: seq<Option<Ref>>, items: seq<Json>, fuel: nat)
    requires Closed(heap) && |slots| == |items|
    requires forall i :: 0 <= i < |slots| ==> slots[i].Some? && Unfolds(heap, slots[i].value, items[i])
    requires items != [] ==> DepthAll(items) < fuel
    ensures TreeAll(heap, slots, fuel) == Some(items)
    decreases fuel, 2, |slots|
  {
    if slots != [] {
      UnfoldsTree(heap, slots[0].value, items[0], fuel);
      UnfoldsTreeAll(heap, slots[1..], items[1..], fuel);
      assert items == [items[0]] + items[1..];
    }
  }

  lemma {:induction false} UnfoldsTreeEntries(heap: Heap, entries: seq<Entry>, members: seq<Member>, fuel: nat)
    requires Closed(heap) && |entries| == |members|
    requires forall i :: 0 <= i < |entries| ==>
                           members[i].key == entries[i].key && Unfolds(heap, entries[i].ref, members[i].value)
    requires members != [] ==> DepthMembers(members) < fuel
    ensures TreeEntries(heap, entries, fuel) == Some(members)
    decreases fuel, 2, |entries|
  {
    if entries != [] {
      UnfoldsTree(heap, entries[0].ref, members[0].value, fuel);
      UnfoldsTreeEntries(heap, entries[1..], members[1..], fuel);
      assert members == [members[0]] + members[1..];
    }
  }

  // ---------------------------------------------------------------- cycles

  /** `b` lies inside `a`, one step or more down. */
  ghost predicate Inside(heap: Heap, a: Ref, b: Ref, steps: nat)
    decreases steps
  {
    steps > 0 && exists c :: Edge(heap, a, c) && (if steps == 1 then c == b else Inside(heap, c, b, steps - 1))
  }

  lemma {:induction false} InsideExtends(heap: Heap, a: Ref, b: Ref, c: Ref, steps: nat)
    requires Inside(heap, a, b, steps) && Edge(heap, b, c)
    ensures Inside(heap, a, c, steps + 1)
    decreases steps
  {
    var d :| Edge(heap, a, d) && (if steps == 1 then d == b else Inside(heap, d, b, steps - 1));
    if steps == 1 {
      assert Inside(heap, d, c, 1);
    } else {
      InsideExtends(heap, d, b, c, steps - 1);
    }
  }

  lemma {:induction false} AllSome(heap: Heap, slots: seq<Option<Ref>>, fuel: nat)
    ensures TreeAll(heap, slots, fuel).Some? <==>
            forall i :: 0 <= i < |slots| ==> slots[i].Some? && Tree(heap, slots[i].value, fuel).Some?
  {
    if slots != [] {
      AllSome(heap, slots[1..], fuel);
      if forall i :: 0 <= i < |slots| ==> slots[i].Some? && Tree(heap, slots[i].value, fuel).Some? {
        forall i | 0 <= i < |slots[1..]| ensures slots[1..][i].Some? && Tree(heap, slots[1..][i].value, fuel).Some? {
          assert slots[1..][i] == slots[i + 1];
        }
      }
    }
  }

  lemma {:induction false} EntriesSome(heap: Heap, entries: seq<Entry>, fuel: nat)
    ensures TreeEntries(heap, entries, fuel).Some? <==> forall e :: e in entries ==> Tree(heap, e.ref, fuel).Some?
  {
    if entries != [] {
      EntriesSome(heap, entries[1..], fuel);
      assert entries == [entries[0]] + entries[1..];
    }
  }

  lemma EdgeTree(heap: Heap, a: Ref, b: Ref, fuel: nat)
    requires Edge(heap, a, b) && Tree(heap, a, fuel).Some?
    ensures fuel > 0 && Tree(heap, b, fuel - 1).Some?
  {
    match heap[a]
    case List(slots) => AllSome(heap, slots, fuel - 1);
    case Record(entries) =>
      EntriesSome(heap, entries, fuel - 1);
      var i :| 0 <= i < |entries| && entries[i].ref == b;
      assert entries[i] in entries;
    case _ =>
  }

  lemma {:induction false} InsideTree(heap: Heap, a: Ref, b: Ref, steps: nat, fuel: nat)
    requires Inside(heap, a, b, steps) && Tree(heap, a, fuel).Some?
    ensures steps <= fuel && Tree(heap, b, fuel - steps).Some?
    decreases steps
  {
    var c :| Edge(heap, a, c) && (if steps == 1 then c == b else Inside(heap, c, b, steps - 1));
    EdgeTree(heap, a, c, fuel);
    if steps > 1 { InsideTree(heap, c, b, steps - 1, fuel - 1); }
  }

  /** An object inside itself denotes no tree, however deep one looks. */
  lemma {:induction false} CycleHasNoTree(heap: Heap, r: Ref, steps: nat, fuel: nat)
    requires Inside(heap, r, r, steps)
    ensures Tree(heap, r, fuel).None?
    decreases fuel
  {
    if Tree(heap, r, fuel).Some? {
      InsideTree(heap, r, r, steps, fuel);
      CycleHasNoTree(heap, r, steps, fuel - steps);
    }
  }

  // ---------------------------------------------------------------- the printer

  /** The text of `r` inside `depth` other objects. */
  function TextOf(heap: Heap, r: Ref, depth: nat): Option<Text>
    requires depth <= MAXIMUM_DEPTH + 1
  {
    var v := Tree(heap, r, MAXIMUM_DEPTH + 1 - depth);
    if v.Some? && AllScalar(v.value) then Some(Print(v.value)) else None
  }

  function KeyOfEntry(): Entry -> Key { (e: Entry) => e.key }

  function PrintEntry(heap: Heap, depth: nat): Entry -> Printed
    requires depth <= MAXIMUM_DEPTH + 1
  {
    (e: Entry) => Printed(e.key, if TextOf(heap, e.ref, depth).Some? then TextOf(heap, e.ref, depth).value else [])
  }

  lemma {:induction false} ListText(heap: Heap, slots: seq<Option<Ref>>, depth: nat)
    requires depth <= MAXIMUM_DEPTH
    requires forall i :: 0 <= i < |slots| ==> slots[i].Some? && TextOf(heap, slots[i].value, depth + 1).Some?
    ensures TreeAll(heap, slots, MAXIMUM_DEPTH - depth).Some?
    ensures ScalarAll(TreeAll(heap, slots, MAXIMUM_DEPTH - depth).value)
    ensures forall i :: 0 <= i < |slots| ==>
                          PrintAll(TreeAll(heap, slots, MAXIMUM_DEPTH - depth).value)[i]
                          == TextOf(heap, slots[i].value, depth + 1).value
    decreases |slots|
  {
    if slots != [] {
      ListText(heap, slots[1..], depth);
      var all := TreeAll(heap, slots, MAXIMUM_DEPTH - depth).value;
      var more := TreeAll(heap, slots[1..], MAXIMUM_DEPTH - depth).value;
      assert all[1..] == more;
      forall i | 0 <= i < |slots| ensures PrintAll(all)[i] == TextOf(heap, slots[i].value, depth + 1).value {
        if i > 0 { assert PrintAll(all)[i] == PrintAll(more)[i - 1] && slots[1..][i - 1] == slots[i]; }
      }
    }
  }

  lemma {:induction false} ListRefused(heap: Heap, slots: seq<Option<Ref>>, depth: nat, i: nat)
    requires depth <= MAXIMUM_DEPTH && i < |slots|
    requires slots[i].None? || TextOf(heap, slots[i].value, depth + 1).None?
    ensures TreeAll(heap, slots, MAXIMUM_DEPTH - depth).None?
            || !ScalarAll(TreeAll(heap, slots, MAXIMUM_DEPTH - depth).value)
    decreases |slots|
  {
    if i > 0 {
      ListRefused(heap, slots[1..], depth, i - 1);
      var all := TreeAll(heap, slots, MAXIMUM_DEPTH - depth);
      if all.Some? { assert all.value[1..] == TreeAll(heap, slots[1..], MAXIMUM_DEPTH - depth).value; }
    }
  }

  lemma {:induction false} RecordText(heap: Heap, entries: seq<Entry>, depth: nat)
    requires depth <= MAXIMUM_DEPTH
    requires forall e :: e in entries ==> Scalar(e.key) && TextOf(heap, e.ref, depth + 1).Some?
    ensures TreeEntries(heap, entries, MAXIMUM_DEPTH - depth).Some?
    ensures ScalarMembers(TreeEntries(heap, entries, MAXIMUM_DEPTH - depth).value)
    ensures PrintMembers(TreeEntries(heap, entries, MAXIMUM_DEPTH - depth).value) == Map(PrintEntry(heap, depth + 1), entries)
    decreases |entries|
  {
    if entries != [] {
      assert entries == [entries[0]] + entries[1..];
      RecordText(heap, entries[1..], depth);
      var all := TreeEntries(heap, entries, MAXIMUM_DEPTH - depth).value;
      assert all[1..] == TreeEntries(heap, entries[1..], MAXIMUM_DEPTH - depth).value;
    }
  }

  lemma {:induction false} RecordRefused(heap: Heap, entries: seq<Entry>, depth: nat, e: Entry)
    requires depth <= MAXIMUM_DEPTH && e in entries
    requires !Scalar(e.key) || TextOf(heap, e.ref, depth + 1).None?
    ensures TreeEntries(heap, entries, MAXIMUM_DEPTH - depth).None?
            || !ScalarMembers(TreeEntries(heap, entries, MAXIMUM_DEPTH - depth).value)
    decreases |entries|
  {
    var all := TreeEntries(heap, entries, MAXIMUM_DEPTH - depth);
    if entries[0] != e {
      RecordRefused(heap, entries[1..], depth, e);
      if all.Some? { assert all.value[1..] == TreeEntries(heap, entries[1..], MAXIMUM_DEPTH - depth).value; }
    }
  }

  /** Every one of `outer` encloses `r`. */
  ghost predicate Enclose(heap: Heap, outer: set<Ref>, r: Ref) {
    forall a :: a in outer ==> exists steps :: Inside(heap, a, r, steps)
  }

  lemma EncloseBelow(heap: Heap, outer: set<Ref>, r: Ref, child: Ref)
    requires Enclose(heap, outer, r) && Edge(heap, r, child)
    ensures Enclose(heap, outer + {r}, child)
  {
    forall a | a in outer + {r} ensures exists steps :: Inside(heap, a, child, steps) {
      if a in outer {
        var steps :| Inside(heap, a, r, steps);
        InsideExtends(heap, a, r, child, steps);
      } else {
        assert Inside(heap, r, child, 1);
      }
    }
  }

  lemma EntryEdge(heap: Heap, entries: seq<Entry>, r: Ref, e: Entry)
    requires r in heap && heap[r] == Record(entries) && e in entries
    ensures Edge(heap, r, e.ref)
  {
    var i :| 0 <= i < |entries| && entries[i] == e;
    assert entries[i].ref == e.ref;
  }

  predicate PrintsEntry(heap: Heap, e: Entry, depth: nat, text: Text)
    requires depth <= MAXIMUM_DEPTH + 1
  {
    Scalar(e.key) && TextOf(heap, e.ref, depth).Some?
    && text == Quote(e.key) + [COLON] + TextOf(heap, e.ref, depth).value
  }

  ghost predicate PrintsEntries(heap: Heap, entries: seq<Entry>, depth: nat, texts: seq<Text>)
    requires depth <= MAXIMUM_DEPTH + 1
  {
    |texts| == |entries| && forall i :: 0 <= i < |texts| ==> PrintsEntry(heap, entries[i], depth, texts[i])
  }

  lemma EachPrinted(heap: Heap, entries: seq<Entry>, depth: nat, texts: seq<Text>)
    requires depth <= MAXIMUM_DEPTH + 1 && PrintsEntries(heap, entries, depth, texts)
    ensures forall e :: e in entries ==> Scalar(e.key) && TextOf(heap, e.ref, depth).Some?
  {
    forall e | e in entries ensures Scalar(e.key) && TextOf(heap, e.ref, depth).Some? {
      var i :| 0 <= i < |entries| && entries[i] == e;
      assert PrintsEntry(heap, entries[i], depth, texts[i]);
    }
  }

  lemma EntriesPrinted(heap: Heap, entries: seq<Entry>, depth: nat, texts: seq<Text>)
    requires depth <= MAXIMUM_DEPTH + 1 && PrintsEntries(heap, entries, depth, texts)
    ensures texts == Map(PrintedMember(), Map(PrintEntry(heap, depth), entries))
  {
    var printed := Map(PrintEntry(heap, depth), entries);
    forall i | 0 <= i < |texts| ensures texts[i] == PrintedMember()(printed[i]) {
      assert PrintsEntry(heap, entries[i], depth, texts[i]);
    }
  }

  lemma SortPrinted(heap: Heap, entries: seq<Entry>, depth: nat)
    requires depth <= MAXIMUM_DEPTH + 1
    ensures Sort(KeyOfPrinted(), Map(PrintEntry(heap, depth), entries))
         == Map(PrintEntry(heap, depth), Sort(KeyOfEntry(), entries))
  {
    forall e ensures KeyOfPrinted()(PrintEntry(heap, depth)(e)) == KeyOfEntry()(e) {}
    SortMap(KeyOfEntry(), KeyOfPrinted(), PrintEntry(heap, depth), entries);
  }

  lemma ObjectText(members: seq<Member>, printed: seq<Printed>, texts: seq<Text>)
    requires PrintMembers(members) == printed && texts == Map(PrintedMember(), Sort(KeyOfPrinted(), printed))
    ensures Print(Object(members)) == [OPEN_OBJECT] + Join(texts) + [CLOSE_OBJECT]
  {
  }

  lemma SortedPrinted(heap: Heap, entries: seq<Entry>, depth: nat, texts: seq<Text>)
    requires depth <= MAXIMUM_DEPTH + 1 && PrintsEntries(heap, Sort(KeyOfEntry(), entries), depth, texts)
    ensures forall e :: e in entries ==> Scalar(e.key) && TextOf(heap, e.ref, depth).Some?
  {
    EachPrinted(heap, Sort(KeyOfEntry(), entries), depth, texts);
    SortMembers(KeyOfEntry(), entries);
  }

  lemma SortedTexts(heap: Heap, entries: seq<Entry>, depth: nat, texts: seq<Text>)
    requires depth <= MAXIMUM_DEPTH + 1 && PrintsEntries(heap, Sort(KeyOfEntry(), entries), depth, texts)
    ensures texts == Map(PrintedMember(), Sort(KeyOfPrinted(), Map(PrintEntry(heap, depth), entries)))
  {
    SortPrinted(heap, entries, depth);
    EntriesPrinted(heap, Sort(KeyOfEntry(), entries), depth, texts);
  }

  lemma RecordIs(heap: Heap, r: Ref, entries: seq<Entry>, depth: nat, members: seq<Member>)
    requires depth <= MAXIMUM_DEPTH && r in heap && heap[r] == Record(entries)
    requires TreeEntries(heap, entries, MAXIMUM_DEPTH - depth) == Some(members) && ScalarMembers(members)
    ensures TextOf(heap, r, depth) == Some(Print(Object(members)))
  {
  }

  lemma SortedMembers(heap: Heap, entries: seq<Entry>, depth: nat, texts: seq<Text>) returns (members: seq<Member>)
    requires depth <= MAXIMUM_DEPTH && PrintsEntries(heap, Sort(KeyOfEntry(), entries), depth + 1, texts)
    ensures TreeEntries(heap, entries, MAXIMUM_DEPTH - depth) == Some(members) && ScalarMembers(members)
    ensures PrintMembers(members) == Map(PrintEntry(heap, depth + 1), entries)
  {
    SortedPrinted(heap, entries, depth + 1, texts);
    RecordText(heap, entries, depth);
    members := TreeEntries(heap, entries, MAXIMUM_DEPTH - depth).value;
  }

  lemma SortedRecordText(heap: Heap, r: Ref, entries: seq<Entry>, depth: nat, texts: seq<Text>)
    requires depth <= MAXIMUM_DEPTH && PrintsEntries(heap, Sort(KeyOfEntry(), entries), depth + 1, texts)
    requires r in heap && heap[r] == Record(entries)
    ensures TextOf(heap, r, depth) == Some([OPEN_OBJECT] + Join(texts) + [CLOSE_OBJECT])
  {
    var members := SortedMembers(heap, entries, depth, texts);
    SortedTexts(heap, entries, depth + 1, texts);
    RecordIs(heap, r, entries, depth, members);
    ObjectText(members, Map(PrintEntry(heap, depth + 1), entries), texts);
  }

  class Canonicalizer {
    const heap: Heap
    /** The objects being printed. */
    var seen: set<Ref>

    constructor (heap: Heap)
      ensures this.heap == heap && seen == {}
    {
      this.heap := heap;
      seen := {};
    }

    method Canonicalize(r: Ref, depth: nat) returns (text: Option<Text>)
      requires Closed(heap) && r in heap && depth <= MAXIMUM_DEPTH + 1 && Enclose(heap, seen, r)
      modifies this
      ensures seen == old(seen)
      ensures text == TextOf(heap, r, depth)
      decreases MAXIMUM_DEPTH + 1 - depth, 1
    {
      if depth > MAXIMUM_DEPTH { return None; }
      var node := heap[r];
      if node.Plain? {
        if node.v.String? {
          var ok := CheckScalar(node.v.s);
          if !ok { return None; }
        }
        return Some(Print(node.v));
      }
      if r in seen {
        ghost var steps :| Inside(heap, r, r, steps);
        CycleHasNoTree(heap, r, steps, MAXIMUM_DEPTH + 1 - depth);
        return None;
      }
      ghost var outer := seen;
      seen := seen + {r};
      if node.List? {
        text := PrintList(r, node.slots, depth, outer);
      } else if node.Record? {
        text := PrintRecord(r, node.entries, depth, outer);
      } else {
        text := None;
      }
      seen := seen - {r};
    }

    method PrintList(r: Ref, slots: seq<Option<Ref>>, depth: nat, ghost outer: set<Ref>) returns (text: Option<Text>)
      requires Closed(heap) && r in heap && heap[r] == List(slots) && depth <= MAXIMUM_DEPTH
      requires seen == outer + {r} && Enclose(heap, outer, r)
      modifies this
      ensures seen == old(seen)
      ensures text == TextOf(heap, r, depth)
      decreases MAXIMUM_DEPTH + 1 - depth, 0
    {
      var items: seq<Text> := [];
      for index := 0 to |slots|
        invariant seen == old(seen) && |items| == index
        invariant forall i :: 0 <= i < index ==>
                                slots[i].Some? && TextOf(heap, slots[i].value, depth + 1) == Some(items[i])
      {
        if slots[index].None? {
          ListRefused(heap, slots, depth, index);
          return None;
        }
        assert Edge(heap, r, slots[index].value);
        EncloseBelow(heap, outer, r, slots[index].value);
        var item := Canonicalize(slots[index].value, depth + 1);
        if item.None? {
          ListRefused(heap, slots, depth, index);
          return None;
        }
        items := items + [item.value];
      }
      ListText(heap, slots, depth);
      assert items == PrintAll(TreeAll(heap, slots, MAXIMUM_DEPTH - depth).value);
      text := Some([OPEN_ARRAY] + Join(items) + [CLOSE_ARRAY]);
    }

    method PrintRecord(r: Ref, entries: seq<Entry>, depth: nat, ghost outer: set<Ref>) returns (text: Option<Text>)
      requires Closed(heap) && r in heap && heap[r] == Record(entries) && depth <= MAXIMUM_DEPTH
      requires seen == outer + {r} && Enclose(heap, outer, r)
      modifies this
      ensures seen == old(seen)
      ensures text == TextOf(heap, r, depth)
      decreases MAXIMUM_DEPTH + 1 - depth, 0
    {
      var keys := Sort(KeyOfEntry(), entries);
      var members: seq<Text> := [];
      SortMembers(KeyOfEntry(), entries);
      for index := 0 to |keys|
        invariant seen == old(seen) && |members| == index
        invariant forall i :: 0 <= i < index ==> PrintsEntry(heap, keys[i], depth + 1, members[i])
      {
        var key := keys[index];
        assert key in keys;
        var ok := CheckScalar(key.key);
        if !ok {
          RecordRefused(heap, entries, depth, key);
          return None;
        }
        EntryEdge(heap, entries, r, key);
        EncloseBelow(heap, outer, r, key.ref);
        var value := Canonicalize(key.ref, depth + 1);
        if value.None? {
          RecordRefused(heap, entries, depth, key);
          return None;
        }
        members := members + [Quote(key.key) + [COLON] + value.value];
      }
      SortedRecordText(heap, r, entries, depth, members);
      text := Some([OPEN_OBJECT] + Join(members) + [CLOSE_OBJECT]);
    }
  }

  /** canonicalJson of an object: the canonical text of the one tree it denotes, if it denotes any. */
  method CanonicalOf(heap: Heap, r: Ref) returns (text: Option<Text>)
    requires Closed(heap) && r in heap
    ensures forall v :: Unfolds(heap, r, v) ==> text == CanonicalJson(v)
    ensures text.Some? ==> exists v :: Unfolds(heap, r, v)
  {
    var c := new Canonicalizer(heap);
    text := c.Canonicalize(r, 0);
    var fuel := MAXIMUM_DEPTH + 1;
    if Tree(heap, r, fuel).Some? { TreeUnfolds(heap, r, fuel); }
    forall v | Unfolds(heap, r, v) ensures text == CanonicalJson(v) {
      if Depth(v) < fuel { UnfoldsTree(heap, r, v, fuel); } else { TooDeep(heap, r, v, fuel); }
    }
  }

  /** A value denotes at most one tree, so what is too deep is too deep however it is unfolded. */
  lemma TooDeep(heap: Heap, r: Ref, v: Json, fuel: nat)
    requires Closed(heap) && Unfolds(heap, r, v) && Depth(v) >= fuel
    ensures Tree(heap, r, fuel).None?
  {
    if Tree(heap, r, fuel).Some? {
      TreeUnfolds(heap, r, fuel);
      UnfoldsTree(heap, r, v, Depth(v) + 1);
      UnfoldsTree(heap, r, Tree(heap, r, fuel).value, Depth(v) + 1);
    }
  }
}
