/**
 * One execution from the guard to its cleanup, as the program runs it. Left to
 * itself it takes exactly the steps of the protocol.
 */
module ReleaseExecution {
  import opened Wrappers
  import opened ReleaseHost

  /** What the outside decides at each step. */
  type Choices = nat -> Choice

  /** How many steps are left at most. */
  function Rank(f: Phase): nat {
    match f
    case Enter => 41
    case Inside => 40
    case Look => 39
    case MakeOperation => 38
    case CreateRequest => 37
    case WriteRequest => 36
    case KeepRequest => 35
    case Preflight => 34
    case SaveBefore(i) => 12 + 3 * (if i < TOOL_COUNT then TOOL_COUNT - i else 0)
    case ReplaceTool(i) => 11 + 3 * (if i < TOOL_COUNT then TOOL_COUNT - i else 0)
    case VerifyTool(i) => 10 + 3 * (if i < TOOL_COUNT then TOOL_COUNT - i else 0)
    case Invoke => 10
    case CreateResult(_, again) => if again then 8 else 9
    case WriteResult(_, _) => 7
    case Leave(_, _, _) => 6
    case Done(_) => 0
  }

  lemma ActDescends(h: Host, pid: Pid, r: Request, f: Phase, c: Choice)
    requires r.Valid() && |h.tools| == TOOL_COUNT && !f.Done?
    ensures Rank(Act(h, pid, r, f, c).1) < Rank(f)
  {
  }

  /** The files and the answer once no other execution interferes; the `k`th choice is the next. */
  function Execute(h: Host, pid: Pid, r: Request, f: Phase, choices: Choices, k: nat): (Host, Answer)
    requires r.Valid() && |h.tools| == TOOL_COUNT
    decreases Rank(f)
  {
    if f.Done? then (h, f.answer)
    else
      ActDescends(h, pid, r, f, choices(k));
      var (next, phase) := Act(h, pid, r, f, choices(k));
      Execute(next, pid, r, phase, choices, k + 1)
  }

  lemma ExecuteStep(h: Host, pid: Pid, r: Request, f: Phase, choices: Choices, k: nat, next: Host, phase: Phase)
    requires r.Valid() && |h.tools| == TOOL_COUNT && !f.Done? && Act(h, pid, r, f, choices(k)) == (next, phase)
    ensures Execute(h, pid, r, f, choices, k) == Execute(next, pid, r, phase, choices, k + 1)
  {
    ActDescends(h, pid, r, f, choices(k));
  }

  class Control {
    const pid: Pid
    var guard: Option<Pid>
    var operations: map<Id, Operation>
    var tools: seq<Option<Hash>>
    var calls: seq<Id>
    ghost var last: Option<Request>

    constructor (pid: Pid, guard: Option<Pid>, operations: map<Id, Operation>, tools: seq<Option<Hash>>)
      ensures this.pid == pid && State() == Host(guard, operations, tools, [], None)
    {
      this.pid := pid;
      this.guard, this.operations, this.tools, this.calls := guard, operations, tools, [];
      last := None;
    }

    ghost function State(): Host
      reads this
    {
      Host(guard, operations, tools, calls, last)
    }

    ghost predicate Fits(r: Request)
      reads this
    {
      r.Valid() && |tools| == TOOL_COUNT
    }

    /** The protocol from phase `f` at choice `k`, on the files as they are. */
    ghost function Rest(r: Request, f: Phase, choices: Choices, k: nat): (Host, Answer)
      requires Fits(r)
      reads this
    {
      Execute(State(), pid, r, f, choices, k)
    }

    /** execute_request: the checks before the guard, the guard, work, cleanup. */
    method ExecuteRequest(r: Request, choices: Choices) returns (answer: Answer)
      requires Fits(r)
      modifies this
      ensures (State(), answer) == old(Rest(r, Enter, choices, 0))
    {
      if choices(0).fails {
        ExecuteStep(State(), pid, r, Enter, choices, 0, State(), Done(Raised));
        return Raised;
      }
      if guard.Some? {
        ExecuteStep(State(), pid, r, Enter, choices, 0, State(), Done(Returned(OperationLocked)));
        return Returned(OperationLocked);
      }
      ghost var before := State();
      guard := Some(pid);
      ExecuteStep(before, pid, r, Enter, choices, 0, State(), Inside);
      var leave, k := Guarded(r, choices);
      answer := Cleanup(r, leave, choices, k);
    }

    /** finally: the guard stays where the work may not be over, or the control path changed. */
    method Cleanup(r: Request, leave: Phase, choices: Choices, k: nat) returns (answer: Answer)
      requires Fits(r) && leave.Leave?
      modifies this`guard
      ensures (State(), answer) == old(Rest(r, leave, choices, k))
    {
      ghost var before := State();
      answer := leave.answer;
      var keep := leave.keep || (leave.pinned && !choices(k).still);
      if !leave.keep && leave.pinned && !choices(k).bound {
        keep := true;
        answer := if answer.Raised? then Raised else Returned(ControlPathChanged);
      }
      if !keep && choices(k).fails { answer := Raised; }
      if !keep && (!choices(k).fails || choices(k).landed) { guard := None; }
      ExecuteStep(before, pid, r, leave, choices, k, State(), Done(answer));
    }

    /** Inside the guard, up to what the cleanup needs. */
    method Guarded(r: Request, choices: Choices) returns (leave: Phase, k: nat)
      requires Fits(r)
      modifies this
      ensures Fits(r) && leave.Leave? && Rest(r, leave, choices, k) == old(Rest(r, Inside, choices, 1))
    {
      var c := choices(1);
      leave := if c.fails then Leave(Raised, false, c.pinned) else Leave(Returned(OperationLocked), false, false);
      k := 2;
      if c.fails || c.locked {
        ExecuteStep(State(), pid, r, Inside, choices, 1, State(), leave);
        return;
      }
      ExecuteStep(State(), pid, r, Inside, choices, 1, State(), Look);
      leave, k := ExecutePinned(r, choices);
    }

    /** execute_pinned: the operation log, then the operation. */
    method ExecutePinned(r: Request, choices: Choices) returns (leave: Phase, k: nat)
      requires Fits(r)
      modifies this
      ensures Fits(r) && leave.Leave? && Rest(r, leave, choices, k) == old(Rest(r, Look, choices, 2))
    {
      var c := choices(2);
      k := 3;
      if c.fails || r.id in operations || c.late {
        leave := Leave(
          if c.fails then Raised else if r.id in operations then Replay(operations[r.id], r.hash) else Returned(Expired), false, true);
        ExecuteStep(State(), pid, r, Look, choices, 2, State(), leave);
        return;
      }
      ExecuteStep(State(), pid, r, Look, choices, 2, State(), MakeOperation);
      leave, k := LogRequest(r, choices);
      if leave.Leave? { return; }
      leave, k := Perform(r, choices);
      if leave.Leave? { return; }
      leave, k := StoreResult(r, leave, choices, k);
    }

    /** The operation directory, the digest of its request, and the request. */
    method LogRequest(r: Request, choices: Choices) returns (phase: Phase, k: nat)
      requires Fits(r) && r.id !in operations
      modifies this`operations
      ensures Fits(r) && Rest(r, phase, choices, k) == old(Rest(r, MakeOperation, choices, 3))
      ensures phase == Leave(Raised, false, true) || (phase == Preflight && k == 7 && r.id in operations)
    {
      phase := Leave(Raised, false, true);
      if choices(3).fails {
        ExecuteStep(State(), pid, r, MakeOperation, choices, 3, State(), phase);
        return phase, 4;
      }
      ghost var before := State();
      operations := operations[r.id := Operation(Absent, Absent)];
      ExecuteStep(before, pid, r, MakeOperation, choices, 3, State(), CreateRequest);
      phase, k := WriteDigest(r, choices);
      if phase.KeepRequest? { phase, k := KeepCopy(r, choices); }
    }

    method KeepCopy(r: Request, choices: Choices) returns (phase: Phase, k: nat)
      requires Fits(r)
      ensures Rest(r, phase, choices, k) == Rest(r, KeepRequest, choices, 6) && k == 7
      ensures phase == if choices(6).fails then Leave(Raised, false, true) else Preflight
    {
      phase := if choices(6).fails then Leave(Raised, false, true) else Preflight;
      ExecuteStep(State(), pid, r, KeepRequest, choices, 6, State(), phase);
      k := 7;
    }

    method WriteDigest(r: Request, choices: Choices) returns (phase: Phase, k: nat)
      requires Fits(r) && r.id in operations
      modifies this`operations
      ensures Fits(r) && Rest(r, phase, choices, k) == old(Rest(r, CreateRequest, choices, 4))
      ensures phase == Leave(Raised, false, true) || (phase == KeepRequest && k == 6 && r.id in operations)
    {
      phase := Leave(Raised, false, true);
      if choices(4).fails {
        ExecuteStep(State(), pid, r, CreateRequest, choices, 4, State(), phase);
        return phase, 5;
      }
      ghost var before := State();
      operations := operations[r.id := operations[r.id].(request := Empty)];
      ExecuteStep(before, pid, r, CreateRequest, choices, 4, State(), WriteRequest);
      if choices(5).fails {
        ExecuteStep(State(), pid, r, WriteRequest, choices, 5, State(), phase);
        return phase, 6;
      }
      before := State();
      operations := operations[r.id := operations[r.id].(request := Full(r.hash))];
      ExecuteStep(before, pid, r, WriteRequest, choices, 5, State(), KeepRequest);
      return KeepRequest, 6;
    }

    /** The preconditions, then the inspection, the install or the wrapper. */
    method Perform(r: Request, choices: Choices) returns (phase: Phase, k: nat)
      requires Fits(r)
      modifies this
      ensures Fits(r) && operations == old(operations)
      ensures (phase.CreateResult? || phase.Leave?) && Rest(r, phase, choices, k) == old(Rest(r, Preflight, choices, 7))
    {
      var c := choices(7);
      ghost var before := State();
      k := 8;
      if c.fails || c.refused {
        phase := CreateResult(Fallback(r, false), true);
      } else if r.action == Inspect {
        phase := if ToolsKnown(r, tools) then CreateResult(InspectionVerified, false) else CreateResult(InspectionRefused, true);
      } else if !ToolsPass(r, tools) {
        phase := CreateResult(PreconditionFailed, true);
      } else if r.action == Install {
        last := Some(r);
        ExecuteStep(before, pid, r, Preflight, choices, 7, State(), SaveBefore(0));
        phase, k := InstallTools(r, choices);
        return;
      } else {
        ExecuteStep(before, pid, r, Preflight, choices, 7, before, Invoke);
        calls := calls + [r.id];
        phase := if choices(8).interrupted then Leave(Returned(OperationIncomplete), true, true)
        else if choices(8).fails then CreateResult(Fallback(r, false), true)
        else CreateResult(WrapperEnded(choices(8).ok), false);
        k := 9;
        ExecuteStep(before, pid, r, Invoke, choices, 8, State(), phase);
        return;
      }
      ExecuteStep(before, pid, r, Preflight, choices, 7, before, phase);
    }

    /** The loop over the tools: save each, and put those that were sent in place, one rename each. */
    method InstallTools(r: Request, choices: Choices) returns (phase: Phase, k: nat)
      requires Fits(r)
      modifies this`tools
      ensures Fits(r)
      ensures phase.CreateResult? && Rest(r, phase, choices, k) == old(Rest(r, SaveBefore(0), choices, 8))
    {
      k := 8;
      var index := 0;
      ghost var end := Rest(r, SaveBefore(0), choices, 8);
      while index < TOOL_COUNT
        invariant 0 <= index <= TOOL_COUNT && Fits(r) && Rest(r, SaveBefore(index), choices, k) == end
      {
        phase, k := InstallOne(r, index, choices, k);
        if phase.CreateResult? { return; }
        index := index + 1;
      }
      ExecuteStep(State(), pid, r, SaveBefore(index), choices, k, State(), CreateResult(Installed, false));
      return CreateResult(Installed, false), k + 1;
    }

    method InstallOne(r: Request, index: nat, choices: Choices, from: nat) returns (phase: Phase, k: nat)
      requires Fits(r) && index < TOOL_COUNT
      modifies this`tools
      ensures Fits(r) && Rest(r, phase, choices, k) == old(Rest(r, SaveBefore(index), choices, from))
      ensures phase == CreateResult(InstallationFailed, true) || phase == SaveBefore(index + 1)
    {
      phase := if choices(from).fails then CreateResult(InstallationFailed, true)
      else if r.sent[index] then ReplaceTool(index) else SaveBefore(index + 1);
      k := from + 1;
      ExecuteStep(State(), pid, r, SaveBefore(index), choices, from, State(), phase);
      if phase.ReplaceTool? { phase, k := ReplaceOne(r, index, choices, k); }
    }

    /** One tool: the rename over it, and its digest checked again. */
    method ReplaceOne(r: Request, index: nat, choices: Choices, from: nat) returns (phase: Phase, k: nat)
      requires Fits(r) && index < TOOL_COUNT
      modifies this`tools
      ensures Fits(r) && Rest(r, phase, choices, k) == old(Rest(r, ReplaceTool(index), choices, from))
      ensures phase == CreateResult(InstallationFailed, true) || phase == SaveBefore(index + 1)
    {
      phase := CreateResult(InstallationFailed, true);
      if choices(from).fails {
        ExecuteStep(State(), pid, r, ReplaceTool(index), choices, from, State(), phase);
        return phase, from + 1;
      }
      ghost var before := State();
      tools := tools[index := Some(r.after[index])];
      ExecuteStep(before, pid, r, ReplaceTool(index), choices, from, State(), VerifyTool(index));
      if !choices(from + 1).fails && tools[index] == Some(r.after[index]) { phase := SaveBefore(index + 1); }
      ExecuteStep(State(), pid, r, VerifyTool(index), choices, from + 1, State(), phase);
      k := from + 2;
    }

    /** The result file, made exclusively and then written; a failure to make it is itself stored, once. */
    method StoreResult(r: Request, create: Phase, choices: Choices, from: nat) returns (leave: Phase, k: nat)
      requires Fits(r) && create.CreateResult?
      modifies this`operations
      ensures Fits(r) && leave.Leave? && Rest(r, leave, choices, k) == old(Rest(r, create, choices, from))
    {
      leave, k := CreateFile(r, create, choices, from);
      if leave.CreateResult? { leave, k := CreateFile(r, leave, choices, k); }
      if leave.WriteResult? { leave, k := WriteFile(r, leave, choices, k); }
    }

    method CreateFile(r: Request, create: Phase, choices: Choices, from: nat) returns (phase: Phase, k: nat)
      requires Fits(r) && create.CreateResult?
      modifies this`operations
      ensures Fits(r) && Rest(r, phase, choices, k) == old(Rest(r, create, choices, from))
      ensures phase.Leave? || phase.WriteResult? || (phase.CreateResult? && phase.again && !create.again)
      ensures phase.WriteResult? ==> r.id in operations
    {
      ghost var before := State();
      if r.id !in operations {
        phase := Leave(Raised, false, true);
      } else if create.again && operations[r.id].result != Absent {
        phase := Leave(Returned(create.code), false, true);
      } else if choices(from).fails || operations[r.id].result != Absent {
        phase := if create.again then Leave(Raised, false, true) else CreateResult(Fallback(r, r.action == Install), true);
      } else {
        operations := operations[r.id := operations[r.id].(result := Empty)];
        phase := WriteResult(
          if create.again || choices(from).bound then create.code else if r.action == Inspect then InspectionRefused else ControlPathChanged,
          create.again);
      }
      ExecuteStep(before, pid, r, create, choices, from, State(), phase);
      k := from + 1;
    }

    method WriteFile(r: Request, write: Phase, choices: Choices, from: nat) returns (leave: Phase, k: nat)
      requires Fits(r) && write.WriteResult? && r.id in operations
      modifies this`operations
      ensures Fits(r) && leave.Leave? && Rest(r, leave, choices, k) == old(Rest(r, write, choices, from))
    {
      ghost var before := State();
      if !choices(from).fails || choices(from).landed {
        operations := operations[r.id := operations[r.id].(result := Full(Outcome(r.hash, write.code)))];
      }
      leave := Leave(WriteAnswer(r, write.code, write.again, choices(from).fails), false, true);
      ExecuteStep(before, pid, r, write, choices, from, State(), leave);
      k := from + 1;
    }
  }

  // ---------------------------------------------------------------- an execution as a run

  /** An execution left to itself is a run of the protocol, so everything every run keeps holds of it. */
  lemma {:induction false} ExecuteIsRun(w: World, pid: Pid, choices: Choices, k: nat) returns (events: seq<Event>)
    requires Shaped(w) && pid in w.processes
    ensures pid in Run(w, events).processes
    ensures var p := w.processes[pid];
            (Run(w, events).host, Run(w, events).processes[pid].phase)
            == (Execute(w.host, pid, p.request, p.phase, choices, k).0, Done(Execute(w.host, pid, p.request, p.phase, choices, k).1))
    decreases Rank(w.processes[pid].phase)
  {
    var p := w.processes[pid];
    events := [];
    if !p.phase.Done? {
      var e := Advance(pid, choices(k));
      ActDescends(w.host, pid, p.request, p.phase, choices(k));
      var rest := ExecuteIsRun(Apply(w, e), pid, choices, k + 1);
      events := [e] + rest;
      assert events[1..] == rest;
    }
  }

  // ---------------------------------------------------------------- one undisturbed install

  /** Nothing goes wrong. */
  ghost predicate Smooth(choices: Choices) {
    forall i: nat :: !choices(i).fails && !choices(i).late && !choices(i).locked && !choices(i).refused && choices(i).bound && choices(i).still
  }

  /** The tools once those from `n` on are replaced. */
  predicate FinalTools(r: Request, n: nat, was: seq<Option<Hash>>, now: seq<Option<Hash>>)
    requires r.Valid() && |was| == TOOL_COUNT && |now| == TOOL_COUNT
  {
    forall i :: 0 <= i < TOOL_COUNT ==> now[i] == if n <= i && r.sent[i] then Some(r.after[i]) else was[i]
  }

  lemma SmoothStores(h: Host, pid: Pid, r: Request, code: Code, choices: Choices, k: nat)
    requires r.Valid() && |h.tools| == TOOL_COUNT && Smooth(choices) && r.id in h.operations
    requires h.operations[r.id].result == Absent
    ensures var (last, answer) := Execute(h, pid, r, CreateResult(code, false), choices, k);
            answer == Stored(Outcome(r.hash, code)) && last.guard.None? && last.tools == h.tools
  {
    var (a, f) := Act(h, pid, r, CreateResult(code, false), choices(k));
    ExecuteStep(h, pid, r, CreateResult(code, false), choices, k, a, f);
    var (b, g) := Act(a, pid, r, f, choices(k + 1));
    ExecuteStep(a, pid, r, f, choices, k + 1, b, g);
    var (d, e) := Act(b, pid, r, g, choices(k + 2));
    ExecuteStep(b, pid, r, g, choices, k + 2, d, e);
  }

  /** Saving a tool that was sent, putting the new one in place and checking it. */
  lemma SmoothReplaces(h: Host, pid: Pid, r: Request, n: nat, choices: Choices, k: nat)
    requires r.Valid() && |h.tools| == TOOL_COUNT && Smooth(choices) && n < TOOL_COUNT && r.sent[n]
    ensures Execute(h, pid, r, SaveBefore(n), choices, k)
         == Execute(h.(tools := h.tools[n := Some(r.after[n])]), pid, r, SaveBefore(n + 1), choices, k + 3)
  {
    var next := h.(tools := h.tools[n := Some(r.after[n])]);
    ExecuteStep(h, pid, r, SaveBefore(n), choices, k, h, ReplaceTool(n));
    ExecuteStep(h, pid, r, ReplaceTool(n), choices, k + 1, next, VerifyTool(n));
    ExecuteStep(next, pid, r, VerifyTool(n), choices, k + 2, next, SaveBefore(n + 1));
  }

  lemma SmoothSkips(h: Host, pid: Pid, r: Request, n: nat, choices: Choices, k: nat)
    requires r.Valid() && |h.tools| == TOOL_COUNT && Smooth(choices) && n < TOOL_COUNT && !r.sent[n]
    ensures Execute(h, pid, r, SaveBefore(n), choices, k) == Execute(h, pid, r, SaveBefore(n + 1), choices, k + 1)
  {
    ExecuteStep(h, pid, r, SaveBefore(n), choices, k, h, SaveBefore(n + 1));
  }

  lemma SmoothEnds(h: Host, pid: Pid, r: Request, choices: Choices, k: nat)
    requires r.Valid() && |h.tools| == TOOL_COUNT && Smooth(choices)
    ensures Execute(h, pid, r, SaveBefore(TOOL_COUNT), choices, k) == Execute(h, pid, r, CreateResult(Installed, false), choices, k + 1)
  {
    ExecuteStep(h, pid, r, SaveBefore(TOOL_COUNT), choices, k, h, CreateResult(Installed, false));
  }

  /** What the execution ends in, from the install of tool `n` on. */
  ghost predicate EndsInstalled(h: Host, r: Request, n: nat, end: (Host, Answer))
    requires r.Valid() && |h.tools| == TOOL_COUNT
  {
    end.1 == Stored(Outcome(r.hash, Installed)) && end.0.guard.None? && |end.0.tools| == TOOL_COUNT
    && FinalTools(r, n, h.tools, end.0.tools)
  }

  lemma EndsEarlier(h: Host, next: Host, r: Request, n: nat, end: (Host, Answer))
    requires r.Valid() && |h.tools| == TOOL_COUNT && n < TOOL_COUNT
    requires next == if r.sent[n] then h.(tools := h.tools[n := Some(r.after[n])]) else h
    requires EndsInstalled(next, r, n + 1, end)
    ensures EndsInstalled(h, r, n, end)
  {
  }

  lemma {:induction false} SmoothInstalls(h: Host, pid: Pid, r: Request, n: nat, choices: Choices, k: nat)
    requires r.Valid() && |h.tools| == TOOL_COUNT && Smooth(choices) && r.id in h.operations && n <= TOOL_COUNT
    requires h.operations[r.id].result == Absent
    ensures EndsInstalled(h, r, n, Execute(h, pid, r, SaveBefore(n), choices, k))
    decreases TOOL_COUNT - n
  {
    var end := Execute(h, pid, r, SaveBefore(n), choices, k);
    if n == TOOL_COUNT {
      SmoothEnds(h, pid, r, choices, k);
      SmoothStores(h, pid, r, Installed, choices, k + 1);
    } else if r.sent[n] {
      var next := h.(tools := h.tools[n := Some(r.after[n])]);
      SmoothReplaces(h, pid, r, n, choices, k);
      SmoothInstalls(next, pid, r, n + 1, choices, k + 3);
      EndsEarlier(h, next, r, n, end);
    } else {
      SmoothSkips(h, pid, r, n, choices, k);
      SmoothInstalls(h, pid, r, n + 1, choices, k + 1);
      EndsEarlier(h, h, r, n, end);
    }
  }

  lemma SmoothEnters(h: Host, pid: Pid, r: Request, choices: Choices)
    requires r.Valid() && |h.tools| == TOOL_COUNT && Smooth(choices) && h.guard.None? && r.id !in h.operations
    ensures Execute(h, pid, r, Enter, choices, 0) == Execute(h.(guard := Some(pid)), pid, r, MakeOperation, choices, 3)
  {
    var a := h.(guard := Some(pid));
    ExecuteStep(h, pid, r, Enter, choices, 0, a, Inside);
    ExecuteStep(a, pid, r, Inside, choices, 1, a, Look);
    ExecuteStep(a, pid, r, Look, choices, 2, a, MakeOperation);
  }

  lemma SmoothLog(h: Host, pid: Pid, r: Request, f: Phase, was: Operation, now: Operation, rest: Phase, choices: Choices, k: nat)
    requires r.Valid() && |h.tools| == TOOL_COUNT && Smooth(choices)
    requires (f, now, rest) == (CreateRequest, was.(request := Empty), WriteRequest)
          || (f, now, rest) == (WriteRequest, was.(request := Full(r.hash)), KeepRequest)
    ensures Execute(SetOperation(h, r.id, was), pid, r, f, choices, k) == Execute(SetOperation(h, r.id, now), pid, r, rest, choices, k + 1)
  {
    assert h.operations[r.id := was][r.id := now] == h.operations[r.id := now];
    ExecuteStep(SetOperation(h, r.id, was), pid, r, f, choices, k, SetOperation(h, r.id, now), rest);
  }

  lemma SmoothMakes(h: Host, pid: Pid, r: Request, choices: Choices)
    requires r.Valid() && |h.tools| == TOOL_COUNT && Smooth(choices)
    ensures Execute(h, pid, r, MakeOperation, choices, 3)
         == Execute(SetOperation(h, r.id, Operation(Absent, Absent)), pid, r, CreateRequest, choices, 4)
  {
    ExecuteStep(h, pid, r, MakeOperation, choices, 3, SetOperation(h, r.id, Operation(Absent, Absent)), CreateRequest);
  }

  lemma SmoothKeeps(h: Host, pid: Pid, r: Request, choices: Choices)
    requires r.Valid() && |h.tools| == TOOL_COUNT && Smooth(choices)
    ensures Execute(h, pid, r, KeepRequest, choices, 6) == Execute(h, pid, r, Preflight, choices, 7)
  {
    ExecuteStep(h, pid, r, KeepRequest, choices, 6, h, Preflight);
  }

  lemma SmoothWrites(h: Host, pid: Pid, r: Request, choices: Choices, end: (Host, Answer))
    requires r.Valid() && |h.tools| == TOOL_COUNT && Smooth(choices)
    requires end == Execute(SetOperation(h, r.id, Operation(Full(r.hash), Absent)), pid, r, Preflight, choices, 7)
    ensures Execute(SetOperation(h, r.id, Operation(Empty, Absent)), pid, r, WriteRequest, choices, 5) == end
  {
    SmoothKeeps(SetOperation(h, r.id, Operation(Full(r.hash), Absent)), pid, r, choices);
    SmoothLog(h, pid, r, WriteRequest, Operation(Empty, Absent), Operation(Full(r.hash), Absent), KeepRequest, choices, 5);
  }

  lemma SmoothLogs(h: Host, pid: Pid, r: Request, choices: Choices, end: (Host, Answer))
    requires r.Valid() && |h.tools| == TOOL_COUNT && Smooth(choices)
    requires end == Execute(SetOperation(h, r.id, Operation(Empty, Absent)), pid, r, WriteRequest, choices, 5)
    ensures Execute(h, pid, r, MakeOperation, choices, 3) == end
  {
    SmoothLog(h, pid, r, CreateRequest, Operation(Absent, Absent), Operation(Empty, Absent), WriteRequest, choices, 4);
    SmoothMakes(h, pid, r, choices);
  }

  lemma SmoothAdmits(h: Host, pid: Pid, r: Request, choices: Choices)
    requires r.Valid() && |h.tools| == TOOL_COUNT && Smooth(choices) && r.action == Install && ToolsPass(r, h.tools)
    ensures Execute(h, pid, r, Preflight, choices, 7) == Execute(h.(last := Some(r)), pid, r, SaveBefore(0), choices, 8)
  {
    ExecuteStep(h, pid, r, Preflight, choices, 7, h.(last := Some(r)), SaveBefore(0));
  }

  /** A new install whose tools pass, left to itself, stores `installed`, replaces exactly the tools sent, and frees the guard. */
  lemma SmoothInstall(h: Host, pid: Pid, r: Request, choices: Choices)
    requires r.Valid() && |h.tools| == TOOL_COUNT && Smooth(choices)
    requires h.guard.None? && r.id !in h.operations && r.action == Install && ToolsPass(r, h.tools)
    ensures EndsInstalled(h, r, 0, Execute(h, pid, r, Enter, choices, 0))
  {
    var inside := h.(guard := Some(pid));
    var logged := SetOperation(inside, r.id, Operation(Full(r.hash), Absent));
    SmoothEnters(h, pid, r, choices);
    var end := Execute(logged, pid, r, Preflight, choices, 7);
    SmoothWrites(inside, pid, r, choices, end);
    SmoothLogs(inside, pid, r, choices, end);
    SmoothAdmits(logged, pid, r, choices);
    SmoothInstalls(logged.(last := Some(r)), pid, r, 0, choices, 8);
  }
}
