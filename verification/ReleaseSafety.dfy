/** What every run of release executions keeps. */
module ReleaseSafety {
  import opened Wrappers
  import opened ReleaseHost

  // ---------------------------------------------------------------- invariants

  function Count(calls: seq<Id>, id: Id): nat {
    if calls == [] then 0 else (if calls[|calls| - 1] == id then 1 else 0) + Count(calls[..|calls| - 1], id)
  }

  lemma CountGrows(calls: seq<Id>, more: Id, id: Id)
    ensures Count(calls + [more], id) == Count(calls, id) + if more == id then 1 else 0
  {
    assert (calls + [more])[..|calls|] == calls;
  }

  /** The wrapper ran at most once for each operation, and only for those in the log. */
  ghost predicate CallsLogged(h: Host) {
    forall id :: Count(h.calls, id) <= (if id in h.operations then 1 else 0)
  }

  /** A stored result answers the request that is logged with it. */
  ghost predicate ResultsMatch(h: Host) {
    forall id :: id in h.operations && h.operations[id].result.Full? ==>
                   h.operations[id].request == Full(h.operations[id].result.content.hash)
  }

  /** Every tool is as the last admitted install found it, or as it leaves it. */
  ghost predicate ToolsAllowed(h: Host) {
    h.last.Some? ==> h.last.value.Valid() && ToolsKnown(h.last.value, h.tools)
  }

  ghost predicate Good(h: Host) {
    |h.tools| == TOOL_COUNT && CallsLogged(h) && ResultsMatch(h) && ToolsAllowed(h)
  }

  /** The tools before `n` that are sent hold their new bytes. */
  predicate Replaced(r: Request, tools: seq<Option<Hash>>, n: nat)
    requires r.Valid() && |tools| == TOOL_COUNT
  {
    forall i :: 0 <= i < n && i < TOOL_COUNT && r.sent[i] ==> tools[i] == Some(r.after[i])
  }

  predicate Logged(h: Host, r: Request, request: File<Hash>, result: bool) {
    r.id in h.operations && h.operations[r.id].request == request
    && (if result then h.operations[r.id].result == Empty else h.operations[r.id].result == Absent)
  }

  /** What the guard's holder may rely on at each phase. */
  predicate Working(h: Host, r: Request, f: Phase)
    requires r.Valid() && |h.tools| == TOOL_COUNT
  {
    match f
    case MakeOperation => r.id !in h.operations
    case CreateRequest => Logged(h, r, Absent, false) && Count(h.calls, r.id) == 0
    case WriteRequest => Logged(h, r, Empty, false) && Count(h.calls, r.id) == 0
    case KeepRequest => Logged(h, r, Full(r.hash), false) && Count(h.calls, r.id) == 0
    case Preflight => Logged(h, r, Full(r.hash), false) && Count(h.calls, r.id) == 0
    case SaveBefore(i) =>
      Logged(h, r, Full(r.hash), false) && r.action == Install && h.last == Some(r) && i <= TOOL_COUNT && Replaced(r, h.tools, i)
    case ReplaceTool(i) =>
      Logged(h, r, Full(r.hash), false) && r.action == Install && h.last == Some(r) && i < TOOL_COUNT && r.sent[i] && Replaced(r, h.tools, i)
    case VerifyTool(i) =>
      Logged(h, r, Full(r.hash), false) && r.action == Install && h.last == Some(r) && i < TOOL_COUNT && Replaced(r, h.tools, i + 1)
    case Invoke => Logged(h, r, Full(r.hash), false) && Count(h.calls, r.id) == 0 && r.action == Wrapped
    case CreateResult(code, _) => Logged(h, r, Full(r.hash), false) && (code == Installed ==> Finished(h, r))
    case WriteResult(code, _) => Logged(h, r, Full(r.hash), true) && (code == Installed ==> Finished(h, r))
    case _ => true
  }

  /** Every tool the install sends is in place. */
  predicate Finished(h: Host, r: Request)
    requires r.Valid() && |h.tools| == TOOL_COUNT
  {
    r.action == Install && Replaced(r, h.tools, TOOL_COUNT)
  }

  /** Running executions hold the guard, so there is one at most, and it finds what it relies on. */
  ghost predicate Safe(w: World) {
    Shaped(w) && Good(w.host)
    && (forall p :: p in w.processes && Running(w.processes[p].phase) ==> w.host.guard == Some(p))
    && (forall p :: p in w.processes && Running(w.processes[p].phase) ==> Working(w.host, w.processes[p].request, w.processes[p].phase))
  }

  // ---------------------------------------------------------------- one step of the holder

  lemma SetKeepsCalls(h: Host, id: Id, op: Operation)
    requires CallsLogged(h)
    ensures CallsLogged(SetOperation(h, id, op))
  {
  }

  lemma SetKeepsResults(h: Host, id: Id, op: Operation)
    requires ResultsMatch(h) && (op.result.Full? ==> op.request == Full(op.result.content.hash))
    ensures ResultsMatch(SetOperation(h, id, op))
  {
  }

  lemma SetGood(h: Host, id: Id, op: Operation)
    requires Good(h) && (op.result.Full? ==> op.request == Full(op.result.content.hash))
    ensures Good(SetOperation(h, id, op))
  {
    SetKeepsCalls(h, id, op);
    SetKeepsResults(h, id, op);
  }

  lemma LogStep(h: Host, pid: Pid, r: Request, f: Phase, c: Choice)
    requires r.Valid() && Good(h) && Working(h, r, f)
    requires f.MakeOperation? || f.CreateRequest? || f.WriteRequest? || f.KeepRequest?
    ensures var (next, phase) := Act(h, pid, r, f, c); Good(next) && Working(next, r, phase) && next.guard == h.guard && Running(phase)
  {
    match f
    case MakeOperation => SetGood(h, r.id, Operation(Absent, Absent));
    case CreateRequest => SetGood(h, r.id, h.operations[r.id].(request := Empty));
    case WriteRequest => SetGood(h, r.id, h.operations[r.id].(request := Full(r.hash)));
    case KeepRequest =>
  }

  lemma PreflightStep(h: Host, r: Request, c: Choice)
    requires r.Valid() && Good(h) && Working(h, r, Preflight)
    ensures var (next, phase) := ActPreflight(h, r, c); Good(next) && Working(next, r, phase) && next.guard == h.guard && Running(phase)
  {
  }

  lemma InstallStep(h: Host, pid: Pid, r: Request, f: Phase, c: Choice)
    requires r.Valid() && Good(h) && Working(h, r, f) && Installing(f)
    ensures var (next, phase) := Act(h, pid, r, f, c); Good(next) && Working(next, r, phase) && next.guard == h.guard && Running(phase)
  {
  }

  lemma InvokeStep(h: Host, pid: Pid, r: Request, c: Choice)
    requires r.Valid() && Good(h) && Working(h, r, Invoke)
    ensures var (next, phase) := Act(h, pid, r, Invoke, c); Good(next) && Working(next, r, phase) && next.guard == h.guard && Running(phase)
  {
    forall id ensures Count(h.calls + [r.id], id) <= if id in h.operations then 1 else 0 { CountGrows(h.calls, r.id, id); }
  }

  lemma ResultStep(h: Host, pid: Pid, r: Request, f: Phase, c: Choice)
    requires r.Valid() && Good(h) && Working(h, r, f) && (f.CreateResult? || f.WriteResult?)
    ensures var (next, phase) := Act(h, pid, r, f, c); Good(next) && Working(next, r, phase) && next.guard == h.guard && Running(phase)
  {
    var op := h.operations[r.id];
    SetGood(h, r.id, op.(result := Empty));
    match f
    case CreateResult(code, again) =>
    case WriteResult(code, again) => SetGood(h, r.id, op.(result := Full(Outcome(r.hash, code))));
  }

  /** Each step of the guard's holder keeps the files good, and leaves it what its next phase relies on. */
  lemma HolderStep(h: Host, pid: Pid, r: Request, f: Phase, c: Choice)
    requires r.Valid() && Good(h) && Running(f) && Working(h, r, f) && h.guard == Some(pid)
    ensures var (next, phase) := Act(h, pid, r, f, c);
            Good(next) && (Running(phase) ==> Working(next, r, phase) && next.guard == Some(pid))
  {
    if f.MakeOperation? || f.CreateRequest? || f.WriteRequest? || f.KeepRequest? {
      LogStep(h, pid, r, f, c);
    } else if f.Preflight? {
      PreflightStep(h, r, c);
    } else if Installing(f) {
      InstallStep(h, pid, r, f, c);
    } else if f.Invoke? {
      InvokeStep(h, pid, r, c);
    } else if f.CreateResult? || f.WriteResult? {
      ResultStep(h, pid, r, f, c);
    }
  }

  /** An execution that is not inside takes the free guard, is turned away, or has ended: it touches no file. */
  lemma OutsideStep(h: Host, pid: Pid, r: Request, f: Phase, c: Choice)
    requires r.Valid() && Good(h) && !Running(f)
    ensures var (next, phase) := Act(h, pid, r, f, c);
            next == h.(guard := next.guard) && Good(next)
            && (Running(phase) ==> h.guard.None? && next.guard == Some(pid) && phase == Inside)
            && (!Running(phase) ==> next.guard == h.guard)
  {
  }

  // ---------------------------------------------------------------- every run

  lemma SafeStart(host: Host)
    requires |host.tools| == TOOL_COUNT && host.guard.None? && host.operations == map[] && host.calls == [] && host.last.None?
    ensures Safe(World(host, map[], {}))
  {
  }

  lemma SafeAdvance(w: World, pid: Pid, c: Choice)
    requires Safe(w)
    ensures Safe(Apply(w, Advance(pid, c)))
  {
    if pid in w.processes {
      var p := w.processes[pid];
      if Running(p.phase) {
        HolderStep(w.host, pid, p.request, p.phase, c);
      } else {
        OutsideStep(w.host, pid, p.request, p.phase, c);
      }
    }
  }

  lemma SafeStep(w: World, e: Event)
    requires Safe(w)
    ensures Safe(Apply(w, e))
  {
    match e
    case Advance(pid, choice) => SafeAdvance(w, pid, choice);
    case Clear => if Holder(w).None? { NoneRunning(w); }
    case _ =>
  }

  lemma NoneRunning(w: World)
    requires Safe(w) && Holder(w).None?
    ensures forall p :: p in w.processes ==> !Running(w.processes[p].phase)
  {
  }

  lemma {:induction false} SafeRun(w: World, events: seq<Event>)
    requires Safe(w)
    ensures Safe(Run(w, events))
    decreases |events|
  {
    if events != [] {
      SafeStep(w, events[0]);
      SafeRun(Apply(w, events[0]), events[1..]);
    }
  }

  /** Over every run of executions, replays, crashes and cleared guards, one execution at a time is inside. */
  lemma OneInside(w: World, events: seq<Event>, a: Pid, b: Pid)
    requires Safe(w)
    requires a in Run(w, events).processes && Running(Run(w, events).processes[a].phase)
    requires b in Run(w, events).processes && Running(Run(w, events).processes[b].phase)
    ensures a == b
  {
    SafeRun(w, events);
  }

  /** And the wrapper is called at most once for each operation. */
  lemma CalledAtMostOnce(w: World, events: seq<Event>, id: Id)
    requires Safe(w)
    ensures Count(Run(w, events).host.calls, id) <= 1
  {
    SafeRun(w, events);
  }

  // ---------------------------------------------------------------- stored results

  /** The operation has stored this result. */
  predicate HasResult(h: Host, id: Id, o: Outcome) { id in h.operations && h.operations[id].result == Full(o) }

  lemma ActKeepsResult(h: Host, pid: Pid, r: Request, f: Phase, c: Choice, id: Id, o: Outcome)
    requires r.Valid() && Good(h) && (Running(f) ==> Working(h, r, f)) && HasResult(h, id, o)
    ensures HasResult(Act(h, pid, r, f, c).0, id, o)
  {
  }

  /** A stored result never changes. */
  lemma {:induction false} ResultNeverChanges(w: World, events: seq<Event>, id: Id, o: Outcome)
    requires Safe(w) && HasResult(w.host, id, o)
    ensures HasResult(Run(w, events).host, id, o)
    decreases |events|
  {
    if events != [] {
      var e := events[0];
      SafeStep(w, e);
      if e.Advance? && e.pid in w.processes {
        var p := w.processes[e.pid];
        ActKeepsResult(w.host, e.pid, p.request, p.phase, e.choice, id, o);
      }
      ResultNeverChanges(Apply(w, e), events[1..], id, o);
    }
  }

  /** Every stored result an execution hands back, or is about to, is in the log under its own request. */
  ghost predicate AnswersLogged(w: World) {
    forall p :: p in w.processes ==> AnswerLogged(w.host, w.processes[p])
  }

  predicate AnswerLogged(h: Host, p: Process) {
    match p.phase
    case Leave(Stored(o), _, _) => HasResult(h, p.request.id, o) && o.hash == p.request.hash
    case Done(Stored(o)) => HasResult(h, p.request.id, o) && o.hash == p.request.hash
    case _ => true
  }

  lemma ActAnswers(h: Host, pid: Pid, p: Process, c: Choice)
    requires p.request.Valid() && Good(h) && (Running(p.phase) ==> Working(h, p.request, p.phase)) && AnswerLogged(h, p)
    ensures var (next, phase) := Act(h, pid, p.request, p.phase, c); AnswerLogged(next, p.(phase := phase))
  {
  }

  lemma AnswersStep(w: World, e: Event)
    requires Safe(w) && AnswersLogged(w)
    ensures AnswersLogged(Apply(w, e))
  {
    if e.Advance? && e.pid in w.processes {
      var p := w.processes[e.pid];
      ActAnswers(w.host, e.pid, p, e.choice);
      forall q | q in w.processes && q != e.pid ensures AnswerLogged(Apply(w, e).host, w.processes[q]) {
        AnswerStays(w.host, e.pid, p, e.choice, w.processes[q]);
      }
    }
  }

  lemma AnswerStays(h: Host, pid: Pid, p: Process, c: Choice, q: Process)
    requires p.request.Valid() && Good(h) && (Running(p.phase) ==> Working(h, p.request, p.phase)) && AnswerLogged(h, q)
    ensures AnswerLogged(Act(h, pid, p.request, p.phase, c).0, q)
  {
    match q.phase
    case Leave(Stored(o), _, _) => ActKeepsResult(h, pid, p.request, p.phase, c, q.request.id, o);
    case Done(Stored(o)) => ActKeepsResult(h, pid, p.request, p.phase, c, q.request.id, o);
    case _ =>
  }

  lemma {:induction false} AnswersRun(w: World, events: seq<Event>)
    requires Safe(w) && AnswersLogged(w)
    ensures AnswersLogged(Run(w, events))
    decreases |events|
  {
    if events != [] {
      SafeStep(w, events[0]);
      AnswersStep(w, events[0]);
      AnswersRun(Apply(w, events[0]), events[1..]);
    }
  }

  /** Executions of one operation that hand back a stored result all hand back the same one. */
  lemma SameStoredResult(w: World, events: seq<Event>, a: Pid, b: Pid, x: Outcome, y: Outcome)
    requires Safe(w) && AnswersLogged(w)
    requires a in Run(w, events).processes && Run(w, events).processes[a].phase == Done(Stored(x))
    requires b in Run(w, events).processes && Run(w, events).processes[b].phase == Done(Stored(y))
    requires Run(w, events).processes[a].request.id == Run(w, events).processes[b].request.id
    ensures x == y
  {
    AnswersRun(w, events);
    assert AnswerLogged(Run(w, events).host, Run(w, events).processes[a]);
    assert AnswerLogged(Run(w, events).host, Run(w, events).processes[b]);
  }

  // ---------------------------------------------------------------- replays

  /** The phases after the operation directory is made and before the wrapper runs. */
  predicate Before(f: Phase) {
    f.MakeOperation? || f.CreateRequest? || f.WriteRequest? || f.KeepRequest? || f.Preflight? || f.Invoke?
  }

  /** The operation is in the log, and no execution is on its way to run the wrapper for it. */
  ghost predicate Spent(w: World, id: Id) {
    id in w.host.operations
    && forall p :: p in w.processes && w.processes[p].request.id == id ==> !Before(w.processes[p].phase)
  }

  lemma SpentAct(h: Host, pid: Pid, r: Request, f: Phase, c: Choice, id: Id)
    requires r.Valid() && Good(h) && (Running(f) ==> Working(h, r, f)) && id in h.operations && (r.id == id ==> !Before(f))
    ensures var (next, phase) := Act(h, pid, r, f, c);
            id in next.operations && (r.id == id ==> !Before(phase)) && Count(next.calls, id) == Count(h.calls, id)
  {
    if f.Invoke? {
      CountGrows(h.calls, r.id, id);
    } else {
      ActKeepsCalls(h, pid, r, f, c);
    }
  }

  lemma ActKeepsCalls(h: Host, pid: Pid, r: Request, f: Phase, c: Choice)
    requires r.Valid() && |h.tools| == TOOL_COUNT && !f.Invoke?
    ensures Act(h, pid, r, f, c).0.calls == h.calls && h.operations.Keys <= Act(h, pid, r, f, c).0.operations.Keys
  {
  }

  /** Once spent, whether by an end or by a crash half way, an operation never runs the wrapper again. */
  lemma {:induction false} SpentForGood(w: World, events: seq<Event>, id: Id)
    requires Safe(w) && Spent(w, id)
    ensures Count(Run(w, events).host.calls, id) == Count(w.host.calls, id) && Spent(Run(w, events), id)
    decreases |events|
  {
    if events != [] {
      var e := events[0];
      SafeStep(w, e);
      if e.Advance? && e.pid in w.processes {
        var p := w.processes[e.pid];
        SpentAct(w.host, e.pid, p.request, p.phase, e.choice, id);
      }
      assert Spent(Apply(w, e), id);
      SpentForGood(Apply(w, e), events[1..], id);
    }
  }

  // ---------------------------------------------------------------- tools

  /** Each tool is as it was or as the install leaves it. */
  predicate OldOrNew(was: seq<Option<Hash>>, r: Request, now: seq<Option<Hash>>)
    requires r.Valid() && |was| == TOOL_COUNT && |now| == TOOL_COUNT
  {
    forall i :: 0 <= i < TOOL_COUNT ==> now[i] == was[i] || now[i] == Some(r.after[i])
  }

  lemma ActOldOrNew(h: Host, pid: Pid, r: Request, f: Phase, c: Choice, was: seq<Option<Hash>>, last: Request)
    requires r.Valid() && Good(h) && (Running(f) ==> Working(h, r, f)) && h.last == Some(last) && |was| == TOOL_COUNT
    requires last.Valid() && OldOrNew(was, last, h.tools)
    ensures var next := Act(h, pid, r, f, c).0; next.last == Some(last) ==> OldOrNew(was, last, next.tools)
  {
  }

  /** No other install is admitted along the run. */
  ghost predicate NoOtherInstall(w: World, events: seq<Event>, last: Request)
    requires Shaped(w)
    decreases |events|
  {
    w.host.last == Some(last) && (events == [] || NoOtherInstall(Apply(w, events[0]), events[1..], last))
  }

  /**
   * From the moment an install is admitted until another one is, whatever
   * crashes, each tool holds either its bytes before the install or the new.
   */
  lemma {:induction false} InstallOldOrNew(w: World, events: seq<Event>, was: seq<Option<Hash>>, last: Request)
    requires Safe(w) && |was| == TOOL_COUNT && last.Valid() && OldOrNew(was, last, w.host.tools)
    requires NoOtherInstall(w, events, last)
    ensures OldOrNew(was, last, Run(w, events).host.tools)
    decreases |events|
  {
    if events != [] {
      var e := events[0];
      SafeStep(w, e);
      if e.Advance? && e.pid in w.processes {
        var p := w.processes[e.pid];
        ActOldOrNew(w.host, e.pid, p.request, p.phase, e.choice, was, last);
      }
      InstallOldOrNew(Apply(w, e), events[1..], was, last);
    }
  }

  /** So a later install of the same digests passes the tool check from every reachable state. */
  lemma InstallMayGoOn(w: World, events: seq<Event>, again: Request)
    requires Safe(w) && Run(w, events).host.last.Some? && again.Valid() && again.action == Install
    requires again.after == Run(w, events).host.last.value.after && again.before == Run(w, events).host.last.value.before
    ensures ToolsPass(again, Run(w, events).host.tools)
  {
    SafeRun(w, events);
  }

  lemma InstalledStep(w: World, e: Event, id: Id, o: Outcome)
    requires Safe(w) && HasResult(Apply(w, e).host, id, o) && !HasResult(w.host, id, o) && o.code == Installed
    ensures InstalledBy(w, e, id)
  {
    assert e.Advance?;
  }

  /** The event is a step of the operation's execution, after which every tool it sends is in place. */
  predicate InstalledBy(w: World, e: Event, id: Id)
    requires Shaped(w)
  {
    e.Advance? && e.pid in w.processes && w.processes[e.pid].request.id == id
    && Replaced(w.processes[e.pid].request, Apply(w, e).host.tools, TOOL_COUNT)
  }

  /** Along any run, `installed` is stored only at a step where every tool that was sent holds its new bytes. */
  lemma {:induction false} InstalledMeansReplaced(w: World, events: seq<Event>, id: Id, o: Outcome) returns (n: nat)
    requires Safe(w) && !HasResult(w.host, id, o) && HasResult(Run(w, events).host, id, o) && o.code == Installed
    ensures n < |events| && InstalledBy(Run(w, events[..n]), events[n], id)
    decreases |events|
  {
    var e := events[0];
    SafeStep(w, e);
    n := 0;
    if HasResult(Apply(w, e).host, id, o) {
      InstalledStep(w, e, id, o);
    } else {
      n := InstalledMeansReplaced(Apply(w, e), events[1..], id, o);
      assert events[1..][..n] == events[..n + 1][1..] && events[1..][n] == events[n + 1];
      n := n + 1;
    }
  }
}
