/** What a replay is told, over every run and to its end. */
module ReleaseReplay {
  import opened Wrappers
  import opened ReleaseHost
  import opened ReleaseSafety

  // ---------------------------------------------------------------- a replay among other executions

  /** What the log holds of an operation decides the answer: the stored result, that there is none, or an error. */
  ghost predicate Tells(op: Operation, hash: Hash, answer: Answer) {
    && (forall o :: answer == Stored(o) <==> op.request == Full(hash) && op.result == Full(o) && o.hash == hash)
    && (answer == Returned(OperationIncomplete) <==> op.request == Full(hash) && op.result == Absent)
    && (answer == Raised <==> op.request != Full(hash) || op.result == Empty)
  }

  lemma ReplayTells(h: Host, id: Id, hash: Hash)
    requires ResultsMatch(h) && id in h.operations
    ensures Tells(h.operations[id], hash, Replay(h.operations[id], hash))
  {
    var op := h.operations[id];
    assert op.result.Full? ==> op.request == Full(op.result.content.hash);
  }

  /** An answer of a replay that looked at `op`: without `quiet`, an error or a lost control path may come instead. */
  predicate MayAnswer(op: Operation, hash: Hash, quiet: bool, answer: Answer) {
    answer == Replay(op, hash) || (!quiet && (answer == Raised || answer == Returned(ControlPathChanged)))
  }

  /** A replay from the moment it is about to look at `op`, unless it died. */
  predicate Replaying(w: World, pid: Pid, r: Request, op: Operation, quiet: bool) {
    pid in w.used
    && (pid in w.processes ==>
          w.processes[pid].request == r
          && match w.processes[pid].phase
             case Look => r.id in w.host.operations && w.host.operations[r.id] == op
             case Leave(answer, keep, pinned) => MayAnswer(op, r.hash, quiet, answer) && !keep && pinned
             case Done(answer) => MayAnswer(op, r.hash, quiet, answer)
             case _ => false)
  }

  /** Nothing fails for this execution, and its control path stays bound. */
  predicate Undisturbed(e: Event, pid: Pid) { e.Advance? && e.pid == pid ==> !e.choice.fails && e.choice.bound }

  predicate AllUndisturbed(events: seq<Event>, pid: Pid) { forall i :: 0 <= i < |events| ==> Undisturbed(events[i], pid) }

  lemma OwnStep(w: World, pid: Pid, r: Request, op: Operation, quiet: bool, c: Choice)
    requires Safe(w) && Replaying(w, pid, r, op, quiet) && pid in w.processes && (quiet ==> !c.fails && c.bound)
    ensures Replaying(Apply(w, Advance(pid, c)), pid, r, op, quiet)
  {
  }

  /** While a replay is about to look, it holds the guard, so nobody else touches the log. */
  lemma OtherStep(w: World, pid: Pid, r: Request, op: Operation, quiet: bool, other: Pid, c: Choice)
    requires Safe(w) && Replaying(w, pid, r, op, quiet) && other != pid
    ensures Replaying(Apply(w, Advance(other, c)), pid, r, op, quiet)
  {
    if other in w.processes && pid in w.processes && w.processes[pid].phase.Look? {
      var q := w.processes[other];
      assert w.host.guard == Some(pid);
      OutsideStep(w.host, other, q.request, q.phase, c);
    }
  }

  lemma ReplayStep(w: World, e: Event, pid: Pid, r: Request, op: Operation, quiet: bool)
    requires Safe(w) && Replaying(w, pid, r, op, quiet) && (quiet ==> Undisturbed(e, pid))
    ensures Replaying(Apply(w, e), pid, r, op, quiet)
  {
    match e
    case Advance(other, c) =>
      if other != pid {
        OtherStep(w, pid, r, op, quiet, other, c);
      } else if pid in w.processes {
        OwnStep(w, pid, r, op, quiet, c);
      }
    case _ =>
  }

  lemma {:induction false} ReplayRun(w: World, events: seq<Event>, pid: Pid, r: Request, op: Operation, quiet: bool)
    requires Safe(w) && Replaying(w, pid, r, op, quiet) && (quiet ==> AllUndisturbed(events, pid))
    ensures Replaying(Run(w, events), pid, r, op, quiet)
    decreases |events|
  {
    if events != [] {
      SafeStep(w, events[0]);
      ReplayStep(w, events[0], pid, r, op, quiet);
      ReplayRun(Apply(w, events[0]), events[1..], pid, r, op, quiet);
    }
  }

  /**
   * Whatever other executions, crashes and cleared guards come in between, an
   * execution that finds its operation in the log ends only in what the log
   * tells at that look, in an error, or in a lost control path.
   */
  lemma ReplayAnswers(w: World, events: seq<Event>, pid: Pid, answer: Answer) returns (told: Answer)
    requires Safe(w) && pid in w.processes && w.processes[pid].phase == Look && w.processes[pid].request.id in w.host.operations
    requires pid in Run(w, events).processes && Run(w, events).processes[pid].phase == Done(answer)
    ensures Tells(w.host.operations[w.processes[pid].request.id], w.processes[pid].request.hash, told)
    ensures answer == told || answer == Raised || answer == Returned(ControlPathChanged)
    ensures AllUndisturbed(events, pid) ==> answer == told
  {
    var r := w.processes[pid].request;
    var op := w.host.operations[r.id];
    told := Replay(op, r.hash);
    ReplayTells(w.host, r.id, r.hash);
    ReplayRun(w, events, pid, r, op, AllUndisturbed(events, pid));
  }

  // ---------------------------------------------------------------- executions left to themselves

  function Repeat(e: Event, n: nat): seq<Event> { if n == 0 then [] else [e] + Repeat(e, n - 1) }

  /** The files and the phase after `n` steps of one execution. */
  function Steps(h: Host, pid: Pid, r: Request, f: Phase, c: Choice, n: nat): (after: (Host, Phase))
    requires r.Valid() && |h.tools| == TOOL_COUNT
    ensures |after.0.tools| == TOOL_COUNT
    decreases n
  {
    if n == 0 then (h, f) else var (next, phase) := Act(h, pid, r, f, c); Steps(next, pid, r, phase, c, n - 1)
  }

  lemma NextStep(h: Host, pid: Pid, r: Request, f: Phase, c: Choice, n: nat, next: Host, phase: Phase)
    requires r.Valid() && |h.tools| == TOOL_COUNT && n > 0 && Act(h, pid, r, f, c) == (next, phase)
    ensures Steps(h, pid, r, f, c, n) == Steps(next, pid, r, phase, c, n - 1)
  {
  }

  predicate At(w: World, pid: Pid, r: Request, h: Host, f: Phase) {
    w.host == h && pid in w.processes && w.processes[pid] == Process(r, f)
  }

  lemma {:induction false} StepsRun(w: World, pid: Pid, r: Request, f: Phase, c: Choice, n: nat)
    requires Shaped(w) && At(w, pid, r, w.host, f)
    ensures var (h, phase) := Steps(w.host, pid, r, f, c, n);
            At(Run(w, Repeat(Advance(pid, c), n)), pid, r, h, phase) && Run(w, Repeat(Advance(pid, c), n)).used == w.used
    decreases n
  {
    if n > 0 {
      var e := Advance(pid, c);
      assert Repeat(e, n)[1..] == Repeat(e, n - 1);
      var (next, phase) := Act(w.host, pid, r, f, c);
      StepsRun(Apply(w, e), pid, r, phase, c, n - 1);
    }
  }

  lemma {:induction false} RunConcat(w: World, a: seq<Event>, b: seq<Event>)
    requires Shaped(w)
    ensures Run(w, a + b) == Run(Run(w, a), b)
    decreases |a|
  {
    if a == [] {
      assert a + b == b;
    } else {
      assert (a + b)[1..] == a[1..] + b;
      RunConcat(Apply(w, a[0]), a[1..], b);
    }
  }

  /** An execution that starts and takes `n` steps. */
  function Alone(pid: Pid, r: Request, c: Choice, n: nat): seq<Event> { [Start(pid, r)] + Repeat(Advance(pid, c), n) }

  lemma AloneRuns(w: World, pid: Pid, r: Request, c: Choice, n: nat)
    requires Shaped(w) && pid !in w.used && r.Valid()
    ensures var (h, phase) := Steps(w.host, pid, r, Enter, c, n);
            At(Run(w, Alone(pid, r, c, n)), pid, r, h, phase) && Run(w, Alone(pid, r, c, n)).used == w.used + {pid}
  {
    assert Alone(pid, r, c, n)[1..] == Repeat(Advance(pid, c), n);
    StepsRun(Apply(w, Start(pid, r)), pid, r, Enter, c, n);
  }

  /** Nothing goes wrong at any step. */
  predicate Calm(c: Choice) { !c.fails && !c.locked && !c.late && !c.refused && c.bound && c.still && !c.interrupted }

  lemma ReplaySteps(h: Host, pid: Pid, r: Request, c: Choice)
    requires r.Valid() && |h.tools| == TOOL_COUNT && h.guard.None? && r.id in h.operations && Calm(c)
    ensures Steps(h, pid, r, Enter, c, 5) == (h, Done(Replay(h.operations[r.id], r.hash)))
  {
    var held := h.(guard := Some(pid));
    var answer := Replay(h.operations[r.id], r.hash);
    NextStep(h, pid, r, Enter, c, 5, held, Inside);
    NextStep(held, pid, r, Inside, c, 4, held, Look);
    NextStep(held, pid, r, Look, c, 3, held, Leave(answer, false, true));
    NextStep(held, pid, r, Leave(answer, false, true), c, 2, h, Done(answer));
    NextStep(h, pid, r, Done(answer), c, 1, h, Done(answer));
  }

  /**
   * A replay that starts with the guard free and is left to itself hands back
   * the stored result exactly when it was stored whole, incomplete exactly
   * when there is no result file, and an error exactly when the request
   * differs or a file was left unfinished. It leaves the files as they were.
   */
  lemma ReplayToTheEnd(w: World, pid: Pid, r: Request, c: Choice) returns (answer: Answer)
    requires Safe(w) && w.host.guard.None? && pid !in w.used && r.Valid() && r.id in w.host.operations && Calm(c)
    ensures At(Run(w, Alone(pid, r, c, 5)), pid, r, w.host, Done(answer)) && Tells(w.host.operations[r.id], r.hash, answer)
  {
    answer := Replay(w.host.operations[r.id], r.hash);
    AloneRuns(w, pid, r, c, 5);
    ReplaySteps(w.host, pid, r, c);
    ReplayTells(w.host, r.id, r.hash);
  }

  // ---------------------------------------------------------------- a run whose replays get no answer

  predicate FirstRun(h: Host, r: Request) {
    r.Valid() && r.action == Wrapped && |h.tools| == TOOL_COUNT && h.guard.None? && h.operations == map[] && ToolsPass(r, h.tools)
  }

  function Logging(h: Host, pid: Pid, r: Request, op: Operation): Host {
    h.(guard := Some(pid), operations := map[r.id := op])
  }

  lemma FirstSteps(h: Host, pid: Pid, r: Request, c: Choice)
    requires FirstRun(h, r) && Calm(c)
    ensures Steps(h, pid, r, Enter, c, 10) == Steps(Logging(h, pid, r, Operation(Absent, Absent)), pid, r, CreateRequest, c, 6)
  {
    var held := h.(guard := Some(pid));
    NextStep(h, pid, r, Enter, c, 10, held, Inside);
    NextStep(held, pid, r, Inside, c, 9, held, Look);
    NextStep(held, pid, r, Look, c, 8, held, MakeOperation);
    NextStep(held, pid, r, MakeOperation, c, 7, Logging(h, pid, r, Operation(Absent, Absent)), CreateRequest);
  }

  lemma RequestSteps(h: Host, pid: Pid, r: Request, c: Choice)
    requires FirstRun(h, r) && Calm(c)
    ensures Steps(Logging(h, pid, r, Operation(Absent, Absent)), pid, r, CreateRequest, c, 6)
         == Steps(Logging(h, pid, r, Operation(Full(r.hash), Absent)), pid, r, Preflight, c, 3)
  {
    var made, empty := Logging(h, pid, r, Operation(Absent, Absent)), Logging(h, pid, r, Operation(Empty, Absent));
    var whole := Logging(h, pid, r, Operation(Full(r.hash), Absent));
    assert made.operations[r.id := Operation(Empty, Absent)] == empty.operations;
    assert empty.operations[r.id := Operation(Full(r.hash), Absent)] == whole.operations;
    NextStep(made, pid, r, CreateRequest, c, 6, empty, WriteRequest);
    NextStep(empty, pid, r, WriteRequest, c, 5, whole, KeepRequest);
    NextStep(whole, pid, r, KeepRequest, c, 4, whole, Preflight);
  }

  lemma WrapperSteps(h: Host, pid: Pid, r: Request, c: Choice)
    requires FirstRun(h, r) && Calm(c)
    ensures Steps(Logging(h, pid, r, Operation(Full(r.hash), Absent)), pid, r, Preflight, c, 3)
         == (Logging(h, pid, r, Operation(Full(r.hash), Empty)).(calls := h.calls + [r.id]), WriteResult(WrapperEnded(c.ok), false))
  {
    var whole := Logging(h, pid, r, Operation(Full(r.hash), Absent));
    var called := whole.(calls := h.calls + [r.id]);
    var unfinished := Logging(h, pid, r, Operation(Full(r.hash), Empty)).(calls := h.calls + [r.id]);
    assert called.operations[r.id := Operation(Full(r.hash), Empty)] == unfinished.operations;
    NextStep(whole, pid, r, Preflight, c, 3, whole, Invoke);
    NextStep(whole, pid, r, Invoke, c, 2, called, CreateResult(WrapperEnded(c.ok), false));
    NextStep(called, pid, r, CreateResult(WrapperEnded(c.ok), false), c, 1, unfinished, WriteResult(WrapperEnded(c.ok), false));
  }

  /** The run: an execution that dies as it is about to write its result, a cleared guard, and a replay. */
  function UnfinishedRun(dead: Pid, replay: Pid, r: Request, c: Choice): seq<Event> {
    Alone(dead, r, c, 10) + ([Crash(dead), Clear] + Alone(replay, r, c, 5))
  }

  lemma Cleared(w: World, pid: Pid)
    requires Shaped(w) && pid in w.processes && w.host.guard == Some(pid)
    ensures Run(w, [Crash(pid), Clear]).host == w.host.(guard := None) && Run(w, [Crash(pid), Clear]).used == w.used
  {
    var events: seq<Event> := [Crash(pid), Clear];
    assert events[1..] == [Clear] && [Clear][1..] == [];
    var crashed := Apply(w, Crash(pid));
    assert Holder(crashed).None?;
    assert Run(w, events) == Run(crashed, [Clear]) == Run(Apply(crashed, Clear), []);
  }

  /** The world in which that execution died and its guard was cleared. */
  lemma UnfinishedWorld(h: Host, dead: Pid, r: Request, c: Choice) returns (w: World)
    requires FirstRun(h, r) && h.calls == [] && h.last.None? && Calm(c)
    ensures w == Run(World(h, map[], {}), Alone(dead, r, c, 10) + [Crash(dead), Clear]) && Safe(w) && w.used == {dead}
    ensures w.host.guard.None? && w.host.calls == [r.id] && w.host.operations == map[r.id := Operation(Full(r.hash), Empty)]
  {
    var start := World(h, map[], {});
    SafeStart(h);
    AloneRuns(start, dead, r, c, 10);
    FirstSteps(h, dead, r, c);
    RequestSteps(h, dead, r, c);
    WrapperSteps(h, dead, r, c);
    var before := Run(start, Alone(dead, r, c, 10));
    RunConcat(start, Alone(dead, r, c, 10), [Crash(dead), Clear]);
    Cleared(before, dead);
    w := Run(start, Alone(dead, r, c, 10) + [Crash(dead), Clear]);
    SafeRun(start, Alone(dead, r, c, 10) + [Crash(dead), Clear]);
  }

  /**
   * A replay is not always told the result or that there is none. From any
   * first world, this run has the wrapper called and its result file made but
   * not written; the replay, though nothing disturbs it, ends in an error.
   */
  lemma UnfinishedResultRaises(h: Host, dead: Pid, replay: Pid, r: Request, c: Choice)
    requires FirstRun(h, r) && h.calls == [] && h.last.None? && Calm(c) && dead != replay
    ensures var after := Run(World(h, map[], {}), UnfinishedRun(dead, replay, r, c));
            replay in after.processes && after.processes[replay] == Process(r, Done(Raised)) && after.host.calls == [r.id]
  {
    var start := World(h, map[], {});
    var w := UnfinishedWorld(h, dead, r, c);
    var answer := ReplayToTheEnd(w, replay, r, c);
    RunConcat(start, Alone(dead, r, c, 10) + [Crash(dead), Clear], Alone(replay, r, c, 5));
    assert UnfinishedRun(dead, replay, r, c) == (Alone(dead, r, c, 10) + [Crash(dead), Clear]) + Alone(replay, r, c, 5);
  }
}
