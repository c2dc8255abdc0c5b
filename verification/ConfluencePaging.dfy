/** Opening a page section by section, and what following its continuations releases. */
module ConfluencePaging {
  import opened Wrappers
  import opened Whitespace
  import opened ConfluenceModel

  const MAXIMUM_HANDLES := 512
  const MAXIMUM_CONTENT_REQUESTS := 160
  const OPEN_LIMIT := 8

  /** The current page body: its metadata and its sections as text. */
  datatype Fetched = Unreadable(error: Error) | Fetched(page: Page, sections: seq<Text>)

  /** What a citation asks for again: the version it was made of, and the text of its section. */
  datatype Cited = Cited(version: Text, text: Text)

  datatype Opened = Opened(items: seq<Item>, truncated: bool, changed: bool)

  predicate IsBlank(text: Text) { forall i :: 0 <= i < |text| ==> IsTrimmed(text[i] as int) }

  /** limit: 1 to 50 asked for, at most `maximum` given. */
  function Limit(value: int, maximum: nat): Option<nat> {
    if value < 1 || value > 50 then None else Some(if value < maximum then value else maximum)
  }

  // ---------------------------------------------------------------- one open

  /** findIndex of the first section that is the cited text, or the number of sections. */
  function Moved(sections: seq<Text>, text: Text): (n: nat)
    ensures n <= |sections|
  {
    if sections == [] then 0
    else if !IsBlank(sections[0]) && sections[0] == text then 0
    else 1 + Moved(sections[1..], text)
  }

  /** Where to read from: the section, whether it is that section alone, and whether the page changed under a citation. */
  datatype Start = Start(offset: nat, single: bool, changed: bool)

  function StartOf(item: Item, cited: Option<Cited>, f: Fetched): Start
    requires f.Fetched?
  {
    var single := item.text.Some? || cited.Some?;
    if cited.Some? && cited.value.version != f.page.version then
      var moved := Moved(f.sections, cited.value.text);
      if moved < |f.sections| then Start(moved, single, false) else Start(0, false, true)
    else Start(item.offset, single, false)
  }

  /** How many sections one open reads: the last place is kept for the continuation. */
  function Count(remaining: nat, maximum: nat): nat
    requires maximum > 0
  {
    if remaining > maximum then maximum - 1 else remaining
  }

  function SectionItem(page: Page, sections: seq<Text>, index: nat): Item
    requires index < |sections|
  {
    Item(page, Numbered(index + 1), index, Some(sections[index]))
  }

  /** The releasable sections from `from` up to `to`. */
  function Released(page: Page, sections: seq<Text>, from: nat, to: nat): seq<Item>
    requires from <= to <= |sections|
    decreases Gap(from, to)
  {
    if from == to then []
    else
      (if IsBlank(sections[from]) then [] else [SectionItem(page, sections, from)])
      + Released(page, sections, from + 1, to)
  }

  function ContinueAt(page: Page, offset: nat): Item { Item(page, Continue(offset), offset, None) }

  /** openItem, of the fetched body. */
  function OpenResult(item: Item, maximum: nat, cited: Option<Cited>, f: Fetched): Result<Opened, Error>
    requires maximum > 0
  {
    if f.Unreadable? then Failure(f.error)
    else if !SamePage(f.page, item.page) then Failure(StaleAccessState)
    else
      var s := StartOf(item, cited, f);
      if s.offset >= |f.sections| then Failure(if cited.Some? then NotFound else StaleAccessState)
      else if item.text.Some? && f.sections[s.offset] != item.text.value then Failure(StaleAccessState)
      else if s.single && cited.Some? && IsBlank(f.sections[s.offset]) then Failure(NotFound)
      else
        var remaining := if s.single then 1 else |f.sections| - s.offset;
        if remaining > 1 && maximum < 2 then Failure(InvalidRequest)
        else
          Success(ReadFrom(f.page, f.sections, s, s.offset + Count(remaining, maximum)))
  }

  /** The sections up to `end`, and where to continue if that is not all. */
  function ReadFrom(page: Page, sections: seq<Text>, s: Start, end: nat): Opened
    requires s.offset <= end <= |sections|
  {
    var more := !s.single && end < |sections|;
    Opened(Released(page, sections, s.offset, end) + if more then [ContinueAt(page, end)] else [], more, s.changed)
  }

  // ---------------------------------------------------------------- what one open gives

  lemma {:induction false} ReleasedLength(page: Page, sections: seq<Text>, from: nat, to: nat)
    requires from <= to <= |sections|
    ensures |Released(page, sections, from, to)| <= to - from
    decreases Gap(from, to)
  {
    if from < to { ReleasedLength(page, sections, from + 1, to); }
  }

  lemma {:induction false} ReleasedSplit(page: Page, sections: seq<Text>, from: nat, mid: nat, to: nat)
    requires from <= mid <= to <= |sections|
    ensures Released(page, sections, from, to) == Released(page, sections, from, mid) + Released(page, sections, mid, to)
    decreases Gap(from, mid)
  {
    if from < mid { ReleasedSplit(page, sections, from + 1, mid, to); }
  }

  /** An open never gives more items than it may, its continuation included. */
  lemma OpenWithinLimit(item: Item, maximum: nat, cited: Option<Cited>, f: Fetched)
    requires maximum > 0 && OpenResult(item, maximum, cited, f).Success?
    ensures |OpenResult(item, maximum, cited, f).value.items| <= maximum
  {
    var s := StartOf(item, cited, f);
    var remaining := if s.single then 1 else |f.sections| - s.offset;
    ReleasedLength(f.page, f.sections, s.offset, s.offset + Count(remaining, maximum));
  }

  /** An inventory or a continuation: a place to read on from. */
  predicate IsPlace(item: Item, page: Page, offset: nat) { SamePage(page, item.page) && item.offset == offset && item.text.None? }

  /** Reading on from a place of an unchanged page. */
  lemma OpenPlace(item: Item, maximum: nat, page: Page, sections: seq<Text>, offset: nat, end: nat)
    requires maximum >= 2 && IsPlace(item, page, offset) && offset < |sections|
    requires end == offset + Count(|sections| - offset, maximum)
    ensures offset < end <= |sections|
    ensures OpenResult(item, maximum, None, Fetched(page, sections)) == Success(ReadFrom(page, sections, Start(offset, false, false), end))
  {
    var f := Fetched(page, sections);
    assert StartOf(item, None, f) == Start(offset, false, false);
  }

  // ---------------------------------------------------------------- following continuations

  function EndOf(sections: seq<Text>, offset: nat, limits: nat -> nat, k: nat): nat
    requires offset < |sections| && limits(k) >= 2
  {
    offset + Count(|sections| - offset, limits(k))
  }

  ghost predicate AreLimits(limits: nat -> nat) { forall k: nat :: limits(k) >= 2 }

  /** Everything released by opening from `offset` and following each continuation, with the `k`th limit and those after it. */
  ghost function Followed(page: Page, sections: seq<Text>, offset: nat, limits: nat -> nat, k: nat): seq<Item>
    requires offset < |sections| && AreLimits(limits)
    decreases Gap(offset, |sections|)
  {
    var end := EndOf(sections, offset, limits, k);
    Released(page, sections, offset, end) + if end < |sections| then Followed(page, sections, end, limits, k + 1) else []
  }

  /** How many opens that takes, and how many handles they issue. */
  ghost function Opens(sections: seq<Text>, offset: nat, limits: nat -> nat, k: nat): (n: nat)
    requires offset < |sections| && AreLimits(limits)
    ensures 0 < n <= |sections| - offset
    decreases Gap(offset, |sections|)
  {
    var end := EndOf(sections, offset, limits, k);
    1 + if end < |sections| then Opens(sections, end, limits, k + 1) else 0
  }

  ghost function Handles(page: Page, sections: seq<Text>, offset: nat, limits: nat -> nat, k: nat): nat
    requires offset < |sections| && AreLimits(limits)
    decreases Gap(offset, |sections|)
  {
    var end := EndOf(sections, offset, limits, k);
    |Released(page, sections, offset, end)| + if end < |sections| then 1 + Handles(page, sections, end, limits, k + 1) else 0
  }

  /** How many requests those opens make with their checks, and whether all the checks pass. */
  ghost function Requests(sections: seq<Text>, offset: nat, limits: nat -> nat, fences: nat -> Fence, k: nat): (n: nat)
    requires offset < |sections| && AreLimits(limits)
    ensures n >= Opens(sections, offset, limits, k)
    decreases Gap(offset, |sections|)
  {
    var end := EndOf(sections, offset, limits, k);
    Cost(fences(k)) + if end < |sections| then Requests(sections, end, limits, fences, k + 1) else 0
  }

  ghost predicate AllPass(sections: seq<Text>, offset: nat, limits: nat -> nat, fences: nat -> Fence, k: nat)
    requires offset < |sections| && AreLimits(limits)
    decreases Gap(offset, |sections|)
  {
    var end := EndOf(sections, offset, limits, k);
    Passes(fences(k)) && (end < |sections| ==> AllPass(sections, end, limits, fences, k + 1))
  }

  lemma FenceStep(sections: seq<Text>, offset: nat, limits: nat -> nat, fences: nat -> Fence, k: nat, end: nat)
    requires offset < |sections| && AreLimits(limits) && end == EndOf(sections, offset, limits, k)
    ensures end == |sections| ==>
              Requests(sections, offset, limits, fences, k) == Cost(fences(k))
              && AllPass(sections, offset, limits, fences, k) == Passes(fences(k))
    ensures end < |sections| ==>
              Requests(sections, offset, limits, fences, k) == Cost(fences(k)) + Requests(sections, end, limits, fences, k + 1)
              && AllPass(sections, offset, limits, fences, k) == (Passes(fences(k)) && AllPass(sections, end, limits, fences, k + 1))
  {
  }

  lemma FollowStep(page: Page, sections: seq<Text>, offset: nat, limits: nat -> nat, k: nat, end: nat)
    requires offset < |sections| && AreLimits(limits) && end == EndOf(sections, offset, limits, k)
    ensures end == |sections| ==>
              Followed(page, sections, offset, limits, k) == Released(page, sections, offset, end)
              && Opens(sections, offset, limits, k) == 1
              && Handles(page, sections, offset, limits, k) == |Released(page, sections, offset, end)|
    ensures end < |sections| ==>
              Followed(page, sections, offset, limits, k) == Released(page, sections, offset, end) + Followed(page, sections, end, limits, k + 1)
              && Opens(sections, offset, limits, k) == 1 + Opens(sections, end, limits, k + 1)
              && Handles(page, sections, offset, limits, k)
                 == |Released(page, sections, offset, end)| + 1 + Handles(page, sections, end, limits, k + 1)
  {
  }

  /** Following continuations ends, and releases every section that is not blank exactly once, in order. */
  lemma {:induction false} FollowedCoversPage(page: Page, sections: seq<Text>, offset: nat, limits: nat -> nat, k: nat)
    requires offset < |sections| && AreLimits(limits)
    ensures Followed(page, sections, offset, limits, k) == Released(page, sections, offset, |sections|)
    decreases Gap(offset, |sections|)
  {
    var end := EndOf(sections, offset, limits, k);
    if end < |sections| {
      FollowedCoversPage(page, sections, end, limits, k + 1);
      ReleasedSplit(page, sections, offset, end, |sections|);
    }
  }

  /** Each released item is the section at its place, and they stand in order. */
  predicate InOrder(items: seq<Item>, page: Page, sections: seq<Text>, from: nat) {
    (forall i :: 0 <= i < |items| ==> from <= items[i].offset < |sections| && items[i] == SectionItem(page, sections, items[i].offset))
    && (forall i, j :: 0 <= i < j < |items| ==> items[i].offset < items[j].offset)
  }

  ghost predicate HasPlace(items: seq<Item>, index: nat) { exists i :: 0 <= i < |items| && items[i].offset == index }

  lemma PlaceInFront(x: Item, rest: seq<Item>, index: nat)
    ensures HasPlace([x] + rest, index) <==> x.offset == index || HasPlace(rest, index)
  {
    var all := [x] + rest;
    if i :| 0 <= i < |rest| && rest[i].offset == index { assert all[i + 1].offset == index; }
    if x.offset == index { assert all[0].offset == index; }
  }

  lemma OrderInFront(x: Item, rest: seq<Item>, page: Page, sections: seq<Text>, from: nat)
    requires from < |sections| && x == SectionItem(page, sections, from) && InOrder(rest, page, sections, from + 1)
    ensures InOrder([x] + rest, page, sections, from)
  {
  }

  lemma OrderLater(items: seq<Item>, page: Page, sections: seq<Text>, from: nat)
    requires InOrder(items, page, sections, from + 1)
    ensures InOrder(items, page, sections, from)
  {
  }

  lemma {:induction false} ReleasedInOrder(page: Page, sections: seq<Text>, from: nat)
    requires from <= |sections|
    ensures InOrder(Released(page, sections, from, |sections|), page, sections, from)
    decreases Gap(from, |sections|)
  {
    if from < |sections| {
      var rest := Released(page, sections, from + 1, |sections|);
      ReleasedInOrder(page, sections, from + 1);
      if IsBlank(sections[from]) {
        OrderLater(rest, page, sections, from);
      } else {
        OrderInFront(SectionItem(page, sections, from), rest, page, sections, from);
      }
    }
  }

  lemma {:induction false} ReleasedPlaces(page: Page, sections: seq<Text>, from: nat, index: nat)
    requires from <= |sections|
    ensures HasPlace(Released(page, sections, from, |sections|), index) <==> from <= index < |sections| && !IsBlank(sections[index])
    decreases Gap(from, |sections|)
  {
    if from < |sections| {
      var rest := Released(page, sections, from + 1, |sections|);
      var x := SectionItem(page, sections, from);
      ReleasedPlaces(page, sections, from + 1, index);
      PlaceInFront(x, rest, index);
      assert Released(page, sections, from, |sections|) == if IsBlank(sections[from]) then rest else [x] + rest;
    }
  }

  /** Released are exactly the sections that are not blank, each once, in order. */
  lemma ReleasedIs(page: Page, sections: seq<Text>, from: nat, index: nat)
    requires from <= |sections|
    ensures InOrder(Released(page, sections, from, |sections|), page, sections, from)
    ensures HasPlace(Released(page, sections, from, |sections|), index) <==> from <= index < |sections| && !IsBlank(sections[index])
  {
    ReleasedInOrder(page, sections, from);
    ReleasedPlaces(page, sections, from, index);
  }
}
