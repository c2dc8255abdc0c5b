/** Bulk revalidation of page metadata against a server that may answer anything. */
module ConfluenceRevalidation {
  import opened Wrappers
  import opened Sequences
  import opened ConfluenceModel

  const MAXIMUM_REQUESTS := 2048
  const BATCH_SIZE := 50

  type Row = Option<Page>

  /**
   * One response: rows that may not be metadata at all, and a continuation.
   * `Failed` is any other way the request ends: an error, an abort, or a
   * binding that changed while it ran.
   */
  datatype Answer = Failed | Answer(rows: seq<Row>, next: Option<Text>)

  /** The answer to each request of a run; nothing is assumed of it. */
  type Server = nat -> Answer

  /** The items of one page, all under its id. */
  type Group = seq<Item>

  function IdOf(): Group -> Text { (g: Group) => if g == [] then "" else g[0].page.id }

  function Ids(groups: seq<Group>): seq<Text> { Map(IdOf(), groups) }

  // ---------------------------------------------------------------- one answer

  /** The page ids asked for, each with its items. */
  type Expected = map<Text, Group>

  predicate Unchanged(items: Group, page: Page) { forall j :: 0 <= j < |items| ==> SamePage(items[j].page, page) }

  /** A row that is a page asked for, in scope and unchanged for each of its items. */
  predicate IsRow(expected: Expected, scope: Scope, row: Row) {
    row.Some? && row.value.id in expected && InScope(scope, row.value) && Unchanged(expected[row.value.id], row.value)
  }

  /** The ids returned once `rows` are added, if each is a row and new. */
  function TakeRows(expected: Expected, scope: Scope, returned: set<Text>, rows: seq<Row>): Option<set<Text>>
    decreases |rows|
  {
    if rows == [] then Some(returned)
    else if IsRow(expected, scope, rows[0]) && rows[0].value.id !in returned then
      TakeRows(expected, scope, returned + {rows[0].value.id}, rows[1..])
    else None
  }

  /** The ids returned and the continuation tokens used so far. */
  datatype Progress = Progress(returned: set<Text>, tokens: set<Text>)

  datatype Outcome = Refused | Done | More(next: Progress)

  const START := Progress({}, {})

  function Step(expected: Expected, scope: Scope, p: Progress, a: Answer): Outcome {
    if a.Failed? || |a.rows| > |expected| then Refused
    else
      var returned := TakeRows(expected, scope, p.returned, a.rows);
      if returned.None? then Refused
      else if a.next.None? then if |returned.value| == |expected| then Done else Refused
      else if a.rows == [] || |returned.value| == |expected| || a.next.value in p.tokens then Refused
      else More(Progress(returned.value, p.tokens + {a.next.value}))
  }

  // ---------------------------------------------------------------- one batch

  /**
   * The requests of one batch from the `at`th on, as far as the request bound
   * lets them go: where they stop once the batch is settled.
   */
  function Run(expected: Expected, scope: Scope, server: Server, at: nat, p: Progress): Option<nat>
    decreases MAXIMUM_REQUESTS - at
  {
    if at >= MAXIMUM_REQUESTS then None
    else
      match Step(expected, scope, p, server(at))
      case Refused => None
      case Done => Some(at + 1)
      case More(next) => Run(expected, scope, server, at + 1, next)
  }

  lemma RunStep(expected: Expected, scope: Scope, server: Server, at: nat, p: Progress, o: Outcome)
    requires at < MAXIMUM_REQUESTS && Step(expected, scope, p, server(at)) == o
    ensures o == Done ==> Run(expected, scope, server, at, p) == Some(at + 1)
    ensures o.More? ==> Run(expected, scope, server, at, p) == Run(expected, scope, server, at + 1, o.next)
  {
  }

  // ---------------------------------------------------------------- strict growth

  lemma {:induction false} TakesMore(expected: Expected, scope: Scope, returned: set<Text>, rows: seq<Row>)
    requires TakeRows(expected, scope, returned, rows).Some?
    ensures returned <= TakeRows(expected, scope, returned, rows).value
    ensures |TakeRows(expected, scope, returned, rows).value| == |returned| + |rows|
    ensures returned <= expected.Keys ==> TakeRows(expected, scope, returned, rows).value <= expected.Keys
    decreases |rows|
  {
    if rows != [] { TakesMore(expected, scope, returned + {rows[0].value.id}, rows[1..]); }
  }

  lemma FewerThan(a: set<Text>, b: set<Text>)
    requires a <= b
    ensures |a| <= |b| && (|a| == |b| ==> a == b)
  {
    assert b == a + (b - a);
    assert |b| == |a| + |b - a|;
    if |a| == |b| { assert b - a == {}; }
  }

  /** An answer that goes on adds a page and leaves one missing. */
  lemma StepGrows(expected: Expected, scope: Scope, p: Progress, a: Answer)
    requires p.returned <= expected.Keys && Step(expected, scope, p, a).More?
    ensures |p.returned| < |Step(expected, scope, p, a).next.returned| < |expected|
    ensures Step(expected, scope, p, a).next.returned <= expected.Keys
  {
    TakesMore(expected, scope, p.returned, a.rows);
    FewerThan(Step(expected, scope, p, a).next.returned, expected.Keys);
  }

  predicate Grows(expected: Expected, p: Progress, next: Progress) {
    next.returned <= expected.Keys && |p.returned| < |next.returned| < |expected|
  }

  /** What the `at`th request decides of the run, given what its answer made of the batch. */
  predicate Decides(expected: Expected, scope: Scope, server: Server, at: nat, p: Progress, o: Outcome) {
    match o
    case Refused => Run(expected, scope, server, at, p).None?
    case Done => Run(expected, scope, server, at, p) == Some(at + 1)
    case More(next) => Run(expected, scope, server, at, p) == Run(expected, scope, server, at + 1, next) && Grows(expected, p, next)
  }

  lemma RunOver(expected: Expected, scope: Scope, server: Server, at: nat, p: Progress)
    requires at >= MAXIMUM_REQUESTS
    ensures Decides(expected, scope, server, at, p, Refused)
  {
  }

  lemma AskMeans(expected: Expected, scope: Scope, server: Server, at: nat, p: Progress, o: Outcome)
    requires at < MAXIMUM_REQUESTS && p.returned <= expected.Keys && o == Step(expected, scope, p, server(at))
    ensures Decides(expected, scope, server, at, p, o)
  {
    RunStep(expected, scope, server, at, p, o);
    if o.More? { StepGrows(expected, scope, p, server(at)); }
  }

  // ---------------------------------------------------------------- what settling means

  /** The ids returned by the answers `at` to `to`, if all their rows are rows and new. */
  function Taken(expected: Expected, scope: Scope, server: Server, at: nat, to: nat, returned: set<Text>): Option<set<Text>>
    decreases Gap(at, to)
  {
    if at >= to then Some(returned)
    else if server(at).Failed? then None
    else
      var more := TakeRows(expected, scope, returned, server(at).rows);
      if more.None? then None else Taken(expected, scope, server, at + 1, to, more.value)
  }

  lemma DoneTakesAll(expected: Expected, scope: Scope, p: Progress, a: Answer)
    requires p.returned <= expected.Keys && Step(expected, scope, p, a) == Done
    ensures a.Answer? && TakeRows(expected, scope, p.returned, a.rows) == Some(expected.Keys)
  {
    var returned := TakeRows(expected, scope, p.returned, a.rows).value;
    TakesMore(expected, scope, p.returned, a.rows);
    assert |expected| == |expected.Keys|;
    FewerThan(returned, expected.Keys);
  }

  /** A settled batch took one request or more, and no more than it had pages missing. */
  lemma {:induction false} RunBound(expected: Expected, scope: Scope, server: Server, at: nat, p: Progress)
    requires p.returned <= expected.Keys && |p.returned| < |expected| && Run(expected, scope, server, at, p).Some?
    ensures at < Run(expected, scope, server, at, p).value <= at + |expected| - |p.returned|
    ensures Run(expected, scope, server, at, p).value <= MAXIMUM_REQUESTS
    decreases MAXIMUM_REQUESTS - at
  {
    var o := Step(expected, scope, p, server(at));
    if o.More? {
      StepGrows(expected, scope, p, server(at));
      RunBound(expected, scope, server, at + 1, o.next);
    }
  }

  /** And it returned every page asked for. */
  lemma {:induction false} RunTakesAll(expected: Expected, scope: Scope, server: Server, at: nat, p: Progress)
    requires p.returned <= expected.Keys && |p.returned| < |expected| && Run(expected, scope, server, at, p).Some?
    ensures Taken(expected, scope, server, at, Run(expected, scope, server, at, p).value, p.returned) == Some(expected.Keys)
    decreases MAXIMUM_REQUESTS - at
  {
    var o := Step(expected, scope, p, server(at));
    RunBound(expected, scope, server, at, p);
    if o == Done {
      DoneTakesAll(expected, scope, p, server(at));
    } else {
      StepGrows(expected, scope, p, server(at));
      RunTakesAll(expected, scope, server, at + 1, o.next);
    }
  }

  /** Every answer but the last goes on with a page and a new token; together they return everything asked for. */
  predicate IsHonest(expected: Expected, scope: Scope, server: Server, at: nat, to: nat, p: Progress)
    decreases Gap(at, to)
  {
    at < to && server(at).Answer? && |server(at).rows| <= |expected|
    && var more := TakeRows(expected, scope, p.returned, server(at).rows);
    more.Some?
    && if at + 1 == to then server(at).next.None? && more.value == expected.Keys
    else
      server(at).next.Some? && server(at).rows != [] && server(at).next.value !in p.tokens && more.value != expected.Keys
      && IsHonest(expected, scope, server, at + 1, to, Progress(more.value, p.tokens + {server(at).next.value}))
  }

  lemma HonestStep(expected: Expected, scope: Scope, p: Progress, a: Answer, more: set<Text>)
    requires a.Answer? && |a.rows| <= |expected| && TakeRows(expected, scope, p.returned, a.rows) == Some(more)
    requires p.returned <= expected.Keys
    ensures a.next.None? && more == expected.Keys ==> Step(expected, scope, p, a) == Done
    ensures a.next.Some? && a.rows != [] && a.next.value !in p.tokens && more != expected.Keys ==>
              Step(expected, scope, p, a) == More(Progress(more, p.tokens + {a.next.value}))
    ensures more <= expected.Keys
  {
    TakesMore(expected, scope, p.returned, a.rows);
    assert |expected| == |expected.Keys|;
    FewerThan(more, expected.Keys);
  }

  /** An honest server within the bound always settles the batch, however it pages. */
  lemma {:induction false} HonestSettles(expected: Expected, scope: Scope, server: Server, at: nat, to: nat, p: Progress)
    requires IsHonest(expected, scope, server, at, to, p) && to <= MAXIMUM_REQUESTS && p.returned <= expected.Keys
    ensures Run(expected, scope, server, at, p) == Some(to)
    decreases Gap(at, to)
  {
    var a := server(at);
    var more := TakeRows(expected, scope, p.returned, a.rows).value;
    HonestStep(expected, scope, p, a, more);
    RunStep(expected, scope, server, at, p, Step(expected, scope, p, a));
    if at + 1 < to {
      var next := Progress(more, p.tokens + {a.next.value});
      HonestSettles(expected, scope, server, at + 1, to, next);
    }
  }

  /** Row `i` of answer `q` is a page of this id. */
  predicate HasRow(server: Server, q: nat, i: nat, id: Text) {
    server(q).Answer? && i < |server(q).rows| && server(q).rows[i].Some? && server(q).rows[i].value.id == id
  }

  /** Rows taken are good and new, and no two share an id. */
  lemma {:induction false} TakenRow(expected: Expected, scope: Scope, returned: set<Text>, rows: seq<Row>, i: nat)
    requires TakeRows(expected, scope, returned, rows).Some? && i < |rows|
    ensures IsRow(expected, scope, rows[i]) && rows[i].value.id !in returned
    ensures rows[i].value.id in TakeRows(expected, scope, returned, rows).value
    decreases |rows|
  {
    var more := returned + {rows[0].value.id};
    TakesMore(expected, scope, more, rows[1..]);
    if i > 0 { TakenRow(expected, scope, more, rows[1..], i - 1); }
  }

  lemma {:induction false} TakenApart(expected: Expected, scope: Scope, returned: set<Text>, rows: seq<Row>, i: nat, j: nat)
    requires TakeRows(expected, scope, returned, rows).Some? && i < j < |rows|
    ensures rows[i].Some? && rows[j].Some? && rows[i].value.id != rows[j].value.id
    decreases |rows|
  {
    var more := returned + {rows[0].value.id};
    if i > 0 {
      TakenApart(expected, scope, more, rows[1..], i - 1, j - 1);
    } else {
      TakenRow(expected, scope, more, rows[1..], j - 1);
    }
  }

  lemma {:induction false} TakenFrom(expected: Expected, scope: Scope, returned: set<Text>, rows: seq<Row>, id: Text) returns (i: nat)
    requires TakeRows(expected, scope, returned, rows).Some?
    requires id in TakeRows(expected, scope, returned, rows).value && id !in returned
    ensures i < |rows| && rows[i].Some? && rows[i].value.id == id
    decreases |rows|
  {
    if rows[0].value.id == id {
      i := 0;
    } else {
      var k := TakenFrom(expected, scope, returned + {rows[0].value.id}, rows[1..], id);
      i := k + 1;
    }
  }

  /** The row that returned a page: in scope, and as each of its items remembers it. */
  lemma {:induction false} ReturnedBy(expected: Expected, scope: Scope, server: Server, at: nat, to: nat, returned: set<Text>, id: Text)
    returns (q: nat, i: nat)
    requires at <= to && Taken(expected, scope, server, at, to, returned).Some?
    requires id in Taken(expected, scope, server, at, to, returned).value && id !in returned
    ensures at <= q < to && HasRow(server, q, i, id) && IsRow(expected, scope, server(q).rows[i])
    decreases Gap(at, to)
  {
    assert at < to;
    var more := TakeRows(expected, scope, returned, server(at).rows).value;
    if id in more {
      q := at;
      i := TakenFrom(expected, scope, returned, server(at).rows, id);
      TakenRow(expected, scope, returned, server(at).rows, i);
    } else {
      q, i := ReturnedBy(expected, scope, server, at + 1, to, more, id);
    }
  }

  /** What has been returned is not returned again. */
  lemma {:induction false} NotAgain(expected: Expected, scope: Scope, server: Server, at: nat, to: nat, returned: set<Text>,
                                    q: nat, i: nat, id: Text)
    requires Taken(expected, scope, server, at, to, returned).Some? && id in returned
    requires at <= q < to && HasRow(server, q, i, id)
    ensures false
    decreases Gap(at, to)
  {
    var more := TakeRows(expected, scope, returned, server(at).rows).value;
    if q == at {
      TakenRow(expected, scope, returned, server(at).rows, i);
    } else {
      TakesMore(expected, scope, returned, server(at).rows);
      NotAgain(expected, scope, server, at + 1, to, more, q, i, id);
    }
  }

  /** No page is returned by two rows. */
  lemma {:induction false} ReturnedOnce(expected: Expected, scope: Scope, server: Server, at: nat, to: nat, returned: set<Text>,
                                        q: nat, i: nat, r: nat, j: nat, id: Text)
    requires Taken(expected, scope, server, at, to, returned).Some?
    requires at <= q <= r < to && HasRow(server, q, i, id) && HasRow(server, r, j, id)
    ensures q == r && i == j
    decreases Gap(at, to)
  {
    var rows := server(at).rows;
    var more := TakeRows(expected, scope, returned, rows).value;
    if at < q {
      ReturnedOnce(expected, scope, server, at + 1, to, more, q, i, r, j, id);
    } else if q < r {
      TakenRow(expected, scope, returned, rows, i);
      NotAgain(expected, scope, server, at + 1, to, more, r, j, id);
    } else if i != j {
      TakenApart(expected, scope, returned, rows, if i < j then i else j, if i < j then j else i);
    }
  }

  // ---------------------------------------------------------------- all groups

  /** new Map over a batch: each page id with its items. */
  function ExpectedOf(batch: seq<Group>): Expected {
    if batch == [] then map[] else ExpectedOf(batch[..|batch| - 1])[IdOf()(batch[|batch| - 1]) := batch[|batch| - 1]]
  }

  lemma {:induction false} ExpectedKeys(batch: seq<Group>, id: Text)
    ensures id in ExpectedOf(batch) <==> id in Ids(batch)
    decreases |batch|
  {
    if batch != [] {
      var front, last := batch[..|batch| - 1], batch[|batch| - 1];
      ExpectedKeys(front, id);
      assert batch == front + [last];
      MapConcat(IdOf(), front, [last]);
      assert Ids([last]) == [IdOf()(last)];
    }
  }

  /** Each group of a batch is the one its id stands for. */
  lemma {:induction false} ExpectedAt(batch: seq<Group>, k: nat)
    requires Distinct(Ids(batch)) && k < |batch|
    ensures IdOf()(batch[k]) in ExpectedOf(batch) && ExpectedOf(batch)[IdOf()(batch[k])] == batch[k]
    decreases |batch|
  {
    var n := |batch| - 1;
    var front := batch[..n];
    if k < n {
      assert Ids(front) == Ids(batch)[..n];
      assert Ids(batch)[k] != Ids(batch)[n];
      assert Ids(front)[k] == Ids(batch)[k];
      ExpectedAt(front, k);
    }
  }

  lemma ExpectedSize(batch: seq<Group>)
    requires Distinct(Ids(batch))
    ensures |ExpectedOf(batch)| == |batch|
  {
    forall id ensures id in Ids(batch) <==> id in ExpectedOf(batch).Keys { ExpectedKeys(batch, id); }
    DistinctLength(Ids(batch), ExpectedOf(batch).Keys);
  }

  function Smaller(a: nat, b: nat): nat { if a < b then a else b }

  function Batch(groups: seq<Group>): seq<Group> { groups[..Smaller(|groups|, BATCH_SIZE)] }

  function Others(groups: seq<Group>): seq<Group> { groups[Smaller(|groups|, BATCH_SIZE)..] }

  /** Batch after batch: where the requests stop once all groups are settled. */
  function RunAll(groups: seq<Group>, scope: Scope, server: Server, at: nat): Option<nat>
    decreases |groups|
  {
    if groups == [] then Some(at)
    else
      var to := Run(ExpectedOf(Batch(groups)), scope, server, at, START);
      if to.None? then None else RunAll(Others(groups), scope, server, to.value)
  }

  lemma RunAllStep(groups: seq<Group>, scope: Scope, server: Server, at: nat, batch: seq<Group>, others: seq<Group>)
    requires groups != [] && batch == Batch(groups) && others == Others(groups)
    ensures var to := Run(ExpectedOf(batch), scope, server, at, START);
            RunAll(groups, scope, server, at) == if to.None? then None else RunAll(others, scope, server, to.value)
  {
  }

  lemma BatchIds(groups: seq<Group>)
    requires Distinct(Ids(groups))
    ensures Distinct(Ids(Batch(groups))) && Distinct(Ids(Others(groups)))
  {
    var size := Smaller(|groups|, BATCH_SIZE);
    assert Ids(Batch(groups)) == Ids(groups)[..size] && Ids(Others(groups)) == Ids(groups)[size..];
  }

  /** A batch that is settled stops within as many requests as it has pages. */
  lemma BatchBound(batch: seq<Group>, scope: Scope, server: Server, at: nat)
    requires Distinct(Ids(batch)) && batch != [] && Run(ExpectedOf(batch), scope, server, at, START).Some?
    ensures at < Run(ExpectedOf(batch), scope, server, at, START).value <= at + |batch|
    ensures Run(ExpectedOf(batch), scope, server, at, START).value <= MAXIMUM_REQUESTS
  {
    ExpectedSize(batch);
    RunBound(ExpectedOf(batch), scope, server, at, START);
  }

  lemma BatchSlices(groups: seq<Group>, offset: nat, next: nat)
    requires offset < |groups| && next == Smaller(offset + BATCH_SIZE, |groups|)
    ensures groups[offset..next] == Batch(groups[offset..]) && groups[next..] == Others(groups[offset..])
  {
  }

  /** Settling all groups takes at most one request for each page. */
  lemma {:induction false} AllBound(groups: seq<Group>, scope: Scope, server: Server, at: nat)
    requires Distinct(Ids(groups)) && RunAll(groups, scope, server, at).Some?
    ensures at <= RunAll(groups, scope, server, at).value <= at + |groups|
    decreases |groups|
  {
    if groups != [] {
      BatchIds(groups);
      BatchBound(Batch(groups), scope, server, at);
      AllBound(Others(groups), scope, server, Run(ExpectedOf(Batch(groups)), scope, server, at, START).value);
    }
  }

  /** A row that is the page of the group: in scope, and as each of its items remembers it. */
  predicate IsPageOf(scope: Scope, g: Group, row: Row) {
    row.Some? && row.value.id == IdOf()(g) && InScope(scope, row.value) && Unchanged(g, row.value)
  }

  /** What a settled batch returned of the page of a group in it. */
  lemma BatchPage(batch: seq<Group>, scope: Scope, server: Server, at: nat, to: nat, k: nat) returns (q: nat, i: nat)
    requires Run(ExpectedOf(batch), scope, server, at, START) == Some(to) && Distinct(Ids(batch)) && k < |batch|
    ensures at <= q < to && server(q).Answer? && i < |server(q).rows| && IsPageOf(scope, batch[k], server(q).rows[i])
  {
    var expected, id := ExpectedOf(batch), IdOf()(batch[k]);
    ExpectedSize(batch);
    ExpectedAt(batch, k);
    RunTakesAll(expected, scope, server, at, START);
    q, i := ReturnedBy(expected, scope, server, at, to, {}, id);
  }

  /** Once all groups are settled, the page of each was returned, in scope and unchanged. */
  lemma {:induction false} EveryPageReturned(groups: seq<Group>, scope: Scope, server: Server, at: nat, k: nat)
    returns (q: nat, i: nat)
    requires RunAll(groups, scope, server, at).Some? && Distinct(Ids(groups)) && k < |groups|
    ensures at <= q < RunAll(groups, scope, server, at).value
    ensures server(q).Answer? && i < |server(q).rows| && IsPageOf(scope, groups[k], server(q).rows[i])
    decreases |groups|
  {
    var to := Run(ExpectedOf(Batch(groups)), scope, server, at, START).value;
    BatchIds(groups);
    BatchBound(Batch(groups), scope, server, at);
    AllBound(Others(groups), scope, server, to);
    if k < |Batch(groups)| {
      q, i := BatchPage(Batch(groups), scope, server, at, to, k);
    } else {
      q, i := EveryPageReturned(Others(groups), scope, server, to, k - |Batch(groups)|);
    }
  }
}
