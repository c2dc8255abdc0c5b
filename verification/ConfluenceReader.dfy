/** The live evidence reader: its request counters, its handles and its operations. */
module ConfluenceReader {
  import opened Wrappers
  import opened Sequences
  import opened ConfluenceModel
  import opened ConfluenceRevalidation
  import opened ConfluencePaging

  class Reader {
    const scope: Scope
    var requests: nat
    var contentRequests: nat
    /** The items released so far; a handle is its place here, for handles are never taken back. */
    var handles: seq<Item>

    constructor (scope: Scope)
      ensures this.scope == scope && requests == 0 && contentRequests == 0 && handles == []
    {
      this.scope := scope;
      requests, contentRequests := 0, 0;
      handles := [];
    }

    // -------------------------------------------------------------- opening

    /** result.map(remember): a handle for each item, until no more may be issued. */
    method Remember(items: seq<Item>) returns (ok: bool)
      requires |handles| <= MAXIMUM_HANDLES
      modifies this`handles
      ensures ok <==> |old(handles)| + |items| <= MAXIMUM_HANDLES
      ensures ok ==> handles == old(handles) + items
      ensures old(handles) <= handles && |handles| <= MAXIMUM_HANDLES
    {
      for i := 0 to |items|
        invariant handles == old(handles) + items[..i] && |handles| <= MAXIMUM_HANDLES
      {
        if |handles| >= MAXIMUM_HANDLES { return false; }
        handles := handles + [items[i]];
      }
      return true;
    }

    /** One counted request: every one counts toward the bound on all, those for content toward theirs too. */
    method Counted(content: bool) returns (ok: bool)
      modifies this`requests, this`contentRequests
      ensures requests == old(requests) + 1
      ensures contentRequests == old(contentRequests) + if content && requests <= MAXIMUM_REQUESTS then 1 else 0
      ensures ok <==> requests <= MAXIMUM_REQUESTS && (content ==> contentRequests <= MAXIMUM_CONTENT_REQUESTS)
    {
      requests := requests + 1;
      if requests > MAXIMUM_REQUESTS { return false; }
      if !content { return true; }
      contentRequests := contentRequests + 1;
      return contentRequests <= MAXIMUM_CONTENT_REQUESTS;
    }

    /** verify: the requests of one connection check, then its outcome. */
    method Verify(check: Check) returns (ok: bool)
      modifies this`requests, this`contentRequests
      ensures contentRequests == old(contentRequests) && old(requests) <= requests <= old(requests) + check.cost
      ensures ok <==> check.passes && (check.cost == 0 || old(requests) + check.cost <= MAXIMUM_REQUESTS)
      ensures ok ==> requests == old(requests) + check.cost
    {
      for i := 0 to check.cost
        invariant requests == old(requests) + i && contentRequests == old(contentRequests)
        invariant i == 0 || requests <= MAXIMUM_REQUESTS
      {
        var counted := Counted(false);
        if !counted { return false; }
      }
      return check.passes;
    }

    /**
     * openItem: a check, one content request, the sections from the item's
     * place on, another check, and a handle for each section.
     */
    method OpenItem(item: Item, maximum: nat, cited: Option<Cited>, f: Fetched, fence: Fence) returns (r: Result<Opened, Error>)
      requires maximum > 0 && |handles| <= MAXIMUM_HANDLES
      modifies this`handles, this`requests, this`contentRequests
      ensures r.Success? <==>
              Passes(fence) && old(requests) + Cost(fence) <= MAXIMUM_REQUESTS && old(contentRequests) < MAXIMUM_CONTENT_REQUESTS
              && OpenResult(item, maximum, cited, f).Success?
              && |old(handles)| + |OpenResult(item, maximum, cited, f).value.items| <= MAXIMUM_HANDLES
      ensures r.Success? ==> r == OpenResult(item, maximum, cited, f) && handles == old(handles) + r.value.items
      ensures r.Success? ==> requests == old(requests) + Cost(fence)
      ensures old(requests) <= requests <= old(requests) + Cost(fence)
      ensures contentRequests == old(contentRequests)
                                 + if fence.before.passes && old(requests) + fence.before.cost < MAXIMUM_REQUESTS then 1 else 0
      ensures old(handles) <= handles && |handles| <= MAXIMUM_HANDLES
    {
      var checked := Verify(fence.before);
      if !checked { return Failure(Unavailable); }
      var counted := Counted(true);
      if !counted { return Failure(Unavailable); }
      r := ReadItem(item, maximum, cited, f);
      if r.Failure? { return; }
      checked := Verify(fence.after);
      if !checked { return Failure(Unavailable); }
      var kept := Remember(r.value.items);
      if !kept { return Failure(Unavailable); }
    }

    /** What openItem makes of the page it read. */
    method ReadItem(item: Item, maximum: nat, cited: Option<Cited>, f: Fetched) returns (r: Result<Opened, Error>)
      requires maximum > 0
      ensures r == OpenResult(item, maximum, cited, f)
    {
      if f.Unreadable? { return Failure(f.error); }
      if !SamePage(f.page, item.page) { return Failure(StaleAccessState); }
      var s := StartOf(item, cited, f);
      if s.offset >= |f.sections| { return Failure(if cited.Some? then NotFound else StaleAccessState); }
      if item.text.Some? && f.sections[s.offset] != item.text.value { return Failure(StaleAccessState); }
      if s.single && cited.Some? && IsBlank(f.sections[s.offset]) { return Failure(NotFound); }
      var remaining := if s.single then 1 else |f.sections| - s.offset;
      if remaining > 1 && maximum < 2 { return Failure(InvalidRequest); }
      var end := s.offset + Count(remaining, maximum);
      var result := ReadSections(f.page, f.sections, s.offset, end);
      var more := !s.single && end < |f.sections|;
      assert result + [] == result;
      if more { result := result + [ContinueAt(f.page, end)]; }
      return Success(Opened(result, more, s.changed));
    }

    /** The loop that fills the result. */
    method ReadSections(page: Page, sections: seq<Text>, from: nat, to: nat) returns (result: seq<Item>)
      requires from <= to <= |sections|
      ensures result == Released(page, sections, from, to)
    {
      result := [];
      for index := from to to
        invariant Released(page, sections, from, to) == result + Released(page, sections, index, to)
      {
        if !IsBlank(sections[index]) { result := result + [SectionItem(page, sections, index)]; }
      }
    }

    /** open: what a handle stands for, read on. */
    method Open(handle: nat, limit: int, f: Fetched, fence: Fence) returns (r: Result<Opened, Error>)
      requires |handles| <= MAXIMUM_HANDLES
      modifies this`handles, this`requests, this`contentRequests
      ensures var maximum := Limit(limit, OPEN_LIMIT);
              r.Success? <==>
              maximum.Some? && handle < |old(handles)| && Passes(fence)
              && old(requests) + Cost(fence) <= MAXIMUM_REQUESTS && old(contentRequests) < MAXIMUM_CONTENT_REQUESTS
              && OpenResult(old(handles)[handle], maximum.value, None, f).Success?
              && |old(handles)| + |OpenResult(old(handles)[handle], maximum.value, None, f).value.items| <= MAXIMUM_HANDLES
      ensures r.Success? ==> r == OpenResult(old(handles)[handle], Limit(limit, OPEN_LIMIT).value, None, f)
                             && handles == old(handles) + r.value.items
                             && requests == old(requests) + Cost(fence) && contentRequests == old(contentRequests) + 1
      ensures Limit(limit, OPEN_LIMIT).None? || handle >= |old(handles)| ==>
                requests == old(requests) && contentRequests == old(contentRequests)
      ensures old(requests) <= requests <= old(requests) + Cost(fence)
      ensures old(handles) <= handles && |handles| <= MAXIMUM_HANDLES
    {
      var maximum := Limit(limit, OPEN_LIMIT);
      if maximum.None? { return Failure(InvalidRequest); }
      if handle >= |handles| { return Failure(NotFound); }
      r := OpenItem(handles[handle], maximum.value, None, f, fence);
    }

    // -------------------------------------------------------------- revalidation

    /** The loop over the rows of one response. */
    method ReadRows(expected: Expected, rows: seq<Row>, seen: set<Text>) returns (returned: Option<set<Text>>)
      ensures returned == TakeRows(expected, scope, seen, rows)
    {
      var ids := seen;
      for i := 0 to |rows|
        invariant TakeRows(expected, scope, seen, rows) == TakeRows(expected, scope, ids, rows[i..])
      {
        var row := rows[i];
        assert rows[i..][1..] == rows[i + 1..];
        if row.None? || row.value.id !in expected || row.value.id in ids || !InScope(scope, row.value)
           || !Unchanged(expected[row.value.id], row.value) {
          return None;
        }
        ids := ids + {row.value.id};
      }
      return Some(ids);
    }

    /** What one response makes of the batch. */
    method ReadAnswer(expected: Expected, a: Answer, p: Progress) returns (o: Outcome)
      ensures o == Step(expected, scope, p, a)
    {
      if a.Failed? || |a.rows| > |expected| { return Refused; }
      var returned := ReadRows(expected, a.rows, p.returned);
      if returned.None? { return Refused; }
      if a.next.None? { return if |returned.value| == |expected| then Done else Refused; }
      if |a.rows| == 0 || |returned.value| == |expected| || a.next.value in p.tokens { return Refused; }
      return More(Progress(returned.value, p.tokens + {a.next.value}));
    }

    /** One request of a batch and what its answer makes of it. */
    method Ask(expected: Expected, server: Server, p: Progress) returns (o: Outcome)
      requires p.returned <= expected.Keys
      modifies this`requests, this`contentRequests
      ensures requests == old(requests) + 1 && contentRequests == old(contentRequests)
      ensures Decides(expected, scope, server, old(requests), p, o)
    {
      ghost var at := requests;
      var counted := Counted(false);
      if !counted {
        RunOver(expected, scope, server, at, p);
        return Refused;
      }
      o := ReadAnswer(expected, server(requests - 1), p);
      AskMeans(expected, scope, server, at, p, o);
    }

    /** The do-while loop over one batch: never more requests than it has pages, whatever the server answers. */
    method RevalidateBatch(expected: Expected, server: Server) returns (ok: bool)
      requires |expected| > 0
      modifies this`requests, this`contentRequests
      ensures contentRequests == old(contentRequests)
      ensures ok <==> Run(expected, scope, server, old(requests), START).Some?
      ensures ok ==> Some(requests) == Run(expected, scope, server, old(requests), START)
      ensures old(requests) < requests <= old(requests) + |expected|
    {
      var p := START;
      while true
        invariant old(requests) <= requests && contentRequests == old(contentRequests)
        invariant Run(expected, scope, server, requests, p) == Run(expected, scope, server, old(requests), START)
        invariant p.returned <= expected.Keys && requests - old(requests) <= |p.returned| < |expected|
        decreases |expected| - |p.returned|
      {
        var o := Ask(expected, server, p);
        if o == Refused { return false; }
        if o == Done { return true; }
        p := o.next;
      }
    }

    /**
     * revalidateMetadata: batch after batch, at most one request for each page
     * in all, whatever the server answers.
     */
    method RevalidateMetadata(groups: seq<Group>, server: Server) returns (ok: bool)
      requires Distinct(Ids(groups))
      modifies this`requests, this`contentRequests
      ensures contentRequests == old(contentRequests)
      ensures ok <==> RunAll(groups, scope, server, old(requests)).Some?
      ensures ok ==> Some(requests) == RunAll(groups, scope, server, old(requests))
      ensures old(requests) <= requests <= old(requests) + |groups|
    {
      var offset := 0;
      ghost var rest := groups;
      while offset < |groups|
        invariant 0 <= offset <= |groups| && rest == groups[offset..]
        invariant old(requests) <= requests <= old(requests) + offset && contentRequests == old(contentRequests)
        invariant RunAll(rest, scope, server, requests) == RunAll(groups, scope, server, old(requests))
        invariant Distinct(Ids(rest))
      {
        var next := Smaller(offset + BATCH_SIZE, |groups|);
        var batch := groups[offset..next];
        ghost var others := groups[next..];
        BatchSlices(groups, offset, next);
        ok := RunBatch(batch, server, rest, others);
        if !ok { return; }
        offset, rest := next, others;
      }
      return true;
    }

    /** The first batch of those that are left. */
    method RunBatch(batch: seq<Group>, server: Server, ghost rest: seq<Group>, ghost others: seq<Group>) returns (ok: bool)
      requires Distinct(Ids(rest)) && rest != [] && batch == Batch(rest) && others == Others(rest)
      modifies this`requests, this`contentRequests
      ensures contentRequests == old(contentRequests)
      ensures !ok ==> RunAll(rest, scope, server, old(requests)).None?
      ensures ok ==> RunAll(rest, scope, server, old(requests)) == RunAll(others, scope, server, requests)
      ensures old(requests) < requests <= old(requests) + |batch| && Distinct(Ids(others))
    {
      BatchIds(rest);
      ExpectedSize(batch);
      RunAllStep(rest, scope, server, requests, batch, others);
      ghost var at := requests;
      ok := RevalidateBatch(ExpectedOf(batch), server);
      if ok { BatchBound(batch, scope, server, at); }
    }
  }

  ghost predicate AreAsked(limits: nat -> int) { forall k: nat :: 2 <= limits(k) <= 50 }

  /** The limits a client asks for, as far as they are granted. */
  ghost function Granted(limits: nat -> int): (granted: nat -> nat)
    requires AreAsked(limits)
    ensures AreLimits(granted)
  {
    assert forall k: nat :: limits(k) >= 2 && Limit(limits(k), OPEN_LIMIT).Some?;
    (k: nat) => if Limit(limits(k), OPEN_LIMIT).Some? then Limit(limits(k), OPEN_LIMIT).value else 2
  }

  function Continued(sections: seq<Text>, end: nat): nat { if end < |sections| then 1 else 0 }

  /** What a reader has spent. */
  datatype Tally = Tally(handles: nat, contents: nat, requests: nat)

  predicate Lasts(t: Tally) {
    t.handles <= MAXIMUM_HANDLES && t.contents <= MAXIMUM_CONTENT_REQUESTS && t.requests <= MAXIMUM_REQUESTS
  }

  /** Once one open has read up to `end`. */
  function AfterOpen(t: Tally, released: nat, more: nat, fence: Fence): Tally {
    Tally(t.handles + released + more, t.contents + 1, t.requests + Cost(fence))
  }

  /** Once the whole way from `offset` on is read. */
  ghost function Total(t: Tally, page: Page, sections: seq<Text>, offset: nat, limits: nat -> nat, fences: nat -> Fence, k: nat): Tally
    requires offset < |sections| && AreLimits(limits)
  {
    Tally(t.handles + Handles(page, sections, offset, limits, k), t.contents + Opens(sections, offset, limits, k),
          t.requests + Requests(sections, offset, limits, fences, k))
  }

  function Spent(reader: Reader): Tally
    reads reader
  {
    Tally(|reader.handles|, reader.contentRequests, reader.requests)
  }

  /** One open on the way, from a place of an unchanged page. */
  method ReadOn(reader: Reader, handle: nat, limit: int, page: Page, sections: seq<Text>, fence: Fence, offset: nat, ghost end: nat)
    returns (texts: Option<seq<Item>>, next: nat)
    requires |reader.handles| <= MAXIMUM_HANDLES && handle < |reader.handles|
    requires IsPlace(reader.handles[handle], page, offset) && offset < |sections| && 2 <= limit <= 50
    requires end == offset + Count(|sections| - offset, Limit(limit, OPEN_LIMIT).value)
    modifies reader`handles, reader`requests, reader`contentRequests
    ensures offset < end <= |sections|
    ensures var after := AfterOpen(old(Spent(reader)), |Released(page, sections, offset, end)|, Continued(sections, end), fence);
            (texts.Some? <==> Passes(fence) && Lasts(after)) && (texts.Some? ==> Spent(reader) == after)
    ensures texts.Some? ==> texts.value == Released(page, sections, offset, end) && next == end
    ensures texts.Some? && end < |sections| ==> reader.handles != [] && IsPlace(reader.handles[|reader.handles| - 1], page, end)
  {
    OpenPlace(reader.handles[handle], Limit(limit, OPEN_LIMIT).value, page, sections, offset, end);
    var r := reader.Open(handle, limit, Fetched(page, sections), fence);
    if r.Failure? { return None, 0; }
    var items := r.value.items;
    if !r.value.truncated { return Some(items), |sections|; }
    assert items[..|items| - 1] == Released(page, sections, offset, end);
    return Some(items[..|items| - 1]), items[|items| - 1].offset;
  }

  /** Where the client stands: what it has, what the rest of the way will add and spend, and whether its checks pass. */
  ghost predicate Along(page: Page, sections: seq<Text>, limits: nat -> nat, fences: nat -> Fence, offset: nat, k: nat,
                        all: seq<Item>, spent: Tally, last: Tally, pass: bool)
  {
    offset < |sections| && AreLimits(limits)
    && Released(page, sections, 0, |sections|) == all + Followed(page, sections, offset, limits, k)
    && Total(spent, page, sections, offset, limits, fences, k) == last
    && AllPass(sections, offset, limits, fences, k) == pass
  }

  lemma AlongNext(page: Page, sections: seq<Text>, limits: nat -> nat, fences: nat -> Fence, offset: nat, k: nat,
                  all: seq<Item>, spent: Tally, last: Tally, pass: bool, end: nat, read: seq<Item>, after: Tally)
    requires Along(page, sections, limits, fences, offset, k, all, spent, last, pass)
    requires end == EndOf(sections, offset, limits, k) && read == Released(page, sections, offset, end)
    requires after == AfterOpen(spent, |read|, Continued(sections, end), fences(k))
    ensures Lasts(last) ==> Lasts(after)
    ensures pass ==> Passes(fences(k))
    ensures end < |sections| && Passes(fences(k)) ==>
              Along(page, sections, limits, fences, end, k + 1, all + read, after, last, pass)
    ensures end == |sections| ==>
              Released(page, sections, 0, |sections|) == all + read && after == last && pass == Passes(fences(k))
  {
    FollowStep(page, sections, offset, limits, k, end);
    FenceStep(sections, offset, limits, fences, k, end);
    if end < |sections| {
      assert all + (read + Followed(page, sections, end, limits, k + 1)) == (all + read) + Followed(page, sections, end, limits, k + 1);
    }
  }

  /** One open along the way: it ends the whole reading either way, or leads on. */
  method ReadNext(reader: Reader, handle: nat, limit: int, fences: nat -> Fence, page: Page, sections: seq<Text>, offset: nat, k: nat,
                  ghost granted: nat -> nat, ghost all: seq<Item>, ghost last: Tally, ghost pass: bool)
    returns (read: Option<seq<Item>>, next: nat)
    requires |reader.handles| <= MAXIMUM_HANDLES && handle < |reader.handles| && 2 <= limit <= 50
    requires Along(page, sections, granted, fences, offset, k, all, Spent(reader), last, pass)
    requires IsPlace(reader.handles[handle], page, offset) && granted(k) == Limit(limit, OPEN_LIMIT).value
    modifies reader`handles, reader`requests, reader`contentRequests
    ensures read.None? ==> !(pass && Lasts(last))
    ensures read.Some? ==> offset < next <= |sections| && |reader.handles| <= MAXIMUM_HANDLES
    ensures read.Some? && next == |sections| ==> all + read.value == Released(page, sections, 0, |sections|) && pass && Lasts(last)
    ensures read.Some? && next < |sections| ==>
              Along(page, sections, granted, fences, next, k + 1, all + read.value, Spent(reader), last, pass)
              && reader.handles != [] && IsPlace(reader.handles[|reader.handles| - 1], page, next)
  {
    ghost var end := EndOf(sections, offset, granted, k);
    ghost var released := Released(page, sections, offset, end);
    ghost var after := AfterOpen(Spent(reader), |released|, Continued(sections, end), fences(k));
    AlongNext(page, sections, granted, fences, offset, k, all, Spent(reader), last, pass, end, released, after);
    read, next := ReadOn(reader, handle, limit, page, sections, fences(k), offset, end);
  }

  /**
   * A client that opens a page from a place and follows every continuation,
   * while the page stays as it is: it receives every section that is not
   * blank once, in order, exactly when all the checks on the way pass and the
   * reader's handles, content requests and requests in all last.
   */
  method ReadWhole(reader: Reader, start: nat, limits: nat -> int, fences: nat -> Fence, page: Page, sections: seq<Text>)
    returns (texts: Option<seq<Item>>)
    requires |reader.handles| <= MAXIMUM_HANDLES
    requires start < |reader.handles| && IsPlace(reader.handles[start], page, 0) && sections != []
    requires AreAsked(limits)
    modifies reader`handles, reader`requests, reader`contentRequests
    ensures texts.Some? ==> texts.value == Released(page, sections, 0, |sections|)
    ensures texts.Some? <==>
            AllPass(sections, 0, Granted(limits), fences, 0)
            && Lasts(Total(old(Spent(reader)), page, sections, 0, Granted(limits), fences, 0))
  {
    ghost var granted := Granted(limits);
    ghost var last := Total(Spent(reader), page, sections, 0, granted, fences, 0);
    ghost var pass := AllPass(sections, 0, granted, fences, 0);
    var all: seq<Item> := [];
    var handle: nat, offset: nat, k: nat := start, 0, 0;
    FollowedCoversPage(page, sections, 0, granted, 0);
    while true
      invariant |reader.handles| <= MAXIMUM_HANDLES
      invariant handle < |reader.handles| && offset < |sections| && IsPlace(reader.handles[handle], page, offset)
      invariant Along(page, sections, granted, fences, offset, k, all, Spent(reader), last, pass)
      decreases Gap(offset, |sections|)
    {
      var read, next := ReadNext(reader, handle, limits(k), fences, page, sections, offset, k, granted, all, last, pass);
      if read.None? { return None; }
      all := all + read.value;
      if next == |sections| { return Some(all); }
      handle, offset, k := |reader.handles| - 1, next, k + 1;
    }
  }
}
