/** The staging release host, one file system step at a time. */
module ReleaseHost {
  import opened Wrappers

  // Operation ids, digests and processes are only ever compared. A file is
  // known by its digest, which is taken to be injective.
  type Id = nat
  type Hash = nat
  type Pid = nat

  const TOOL_COUNT := 6

  /** A file made by exclusive creation, written after that. */
  datatype File<+T> = Absent | Empty | Full(content: T)

  datatype Action = Install | Inspect | Wrapped

  /** `before` and `after` are the digests of each tool; only those marked `sent` carry their bytes. */
  datatype Request = Request(id: Id, action: Action, hash: Hash, after: seq<Hash>, before: seq<Hash>, sent: seq<bool>) {
    predicate Valid() { |after| == TOOL_COUNT && |before| == TOOL_COUNT && |sent| == TOOL_COUNT }
  }

  datatype Code =
    | Installed | InstallationFailed | InspectionVerified | InspectionRefused | WrapperEnded(ok: bool) | PreconditionFailed
    | ControlPathChanged | OperationLocked | OperationIncomplete | Expired

  datatype Outcome = Outcome(hash: Hash, code: Code)

  datatype Operation = Operation(request: File<Hash>, result: File<Outcome>)

  /** What an execution hands back: an answer of its own, the stored result, or an error (of an inspection, its refusal). */
  datatype Answer = Returned(code: Code) | Stored(outcome: Outcome) | Raised

  /** Where an execution stands: the step it takes next. */
  datatype Phase =
    | Enter
    | Inside
    | Look
    | MakeOperation
    | CreateRequest
    | WriteRequest
    | KeepRequest
    | Preflight
    | SaveBefore(tool: nat)
    | ReplaceTool(tool: nat)
    | VerifyTool(tool: nat)
    | Invoke
    | CreateResult(code: Code, again: bool)
    | WriteResult(code: Code, again: bool)
    | Leave(answer: Answer, keep: bool, pinned: bool)
    | Done(answer: Answer)

  /** The files, with the wrapper calls made so far and the last install whose tools passed the check. */
  datatype Host = Host(
    guard: Option<Pid>, operations: map<Id, Operation>, tools: seq<Option<Hash>>, calls: seq<Id>, last: Option<Request>)

  /**
   * What the outside decides at a step: whether it fails, its effect perhaps
   * already `landed`, and how a check or the wrapper comes out. The control path
   * may be `pinned` when a first step fails, `bound` to its name, and `still` so
   * at a second look.
   */
  datatype Choice = Choice(
    fails: bool, landed: bool, late: bool, locked: bool, refused: bool, pinned: bool, bound: bool, still: bool, interrupted: bool, ok: bool)

  // ---------------------------------------------------------------- one step

  /** The tool check of installer_preconditions; only an install may find the old tool. */
  predicate ToolsPass(r: Request, tools: seq<Option<Hash>>)
    requires r.Valid()
  {
    |tools| == TOOL_COUNT
    && forall i :: 0 <= i < TOOL_COUNT ==>
                     tools[i] == Some(r.after[i]) || (r.action == Install && tools[i] == Some(r.before[i]))
  }

  /** The tool check of an inspection, which may find either. */
  predicate ToolsKnown(r: Request, tools: seq<Option<Hash>>)
    requires r.Valid()
  {
    |tools| == TOOL_COUNT
    && forall i :: 0 <= i < TOOL_COUNT ==> tools[i] == Some(r.after[i]) || tools[i] == Some(r.before[i])
  }

  /** What an error inside the operation is stored as. */
  function Fallback(r: Request, installing: bool): Code {
    if r.action == Inspect then InspectionRefused else if installing then InstallationFailed else PreconditionFailed
  }

  /** What follows the write of the result: once it fails, what would have been stored in its place is handed back. */
  function WriteAnswer(r: Request, code: Code, again: bool, fails: bool): Answer {
    if !fails then Stored(Outcome(r.hash, code)) else if again then Raised else Returned(Fallback(r, r.action == Install))
  }

  predicate Installing(f: Phase) { f.SaveBefore? || f.ReplaceTool? || f.VerifyTool? }

  /** An operation directory that is already there: the stored result, or why there is none. */
  function Replay(op: Operation, hash: Hash): Answer {
    if op.request != Full(hash) then Raised
    else
      match op.result
      case Full(outcome) => if outcome.hash == hash then Stored(outcome) else Raised
      case Empty => Raised
      case Absent => Returned(OperationIncomplete)
  }

  function SetOperation(h: Host, id: Id, op: Operation): Host { h.(operations := h.operations[id := op]) }

  /** The next step of process `pid` at phase `f` of request `r`: the files after it, and where it then stands. */
  function Act(h: Host, pid: Pid, r: Request, f: Phase, c: Choice): (next: (Host, Phase))
    requires r.Valid() && |h.tools| == TOOL_COUNT
    ensures |next.0.tools| == TOOL_COUNT
  {
    match f
    case Enter =>
      if c.fails then (h, Done(Raised))
      else if h.guard.Some? then (h, Done(Returned(OperationLocked))) else (h.(guard := Some(pid)), Inside)
    case Inside =>
      if c.fails then (h, Leave(Raised, false, c.pinned))
      else if c.locked then (h, Leave(Returned(OperationLocked), false, false))
      else (h, Look)
    case Look =>
      if c.fails then (h, Leave(Raised, false, true))
      else if r.id in h.operations then (h, Leave(Replay(h.operations[r.id], r.hash), false, true))
      else if c.late then (h, Leave(Returned(Expired), false, true))
      else (h, MakeOperation)
    case MakeOperation =>
      if c.fails then (h, Leave(Raised, false, true)) else (SetOperation(h, r.id, Operation(Absent, Absent)), CreateRequest)
    case CreateRequest =>
      if c.fails || r.id !in h.operations then (h, Leave(Raised, false, true))
      else (SetOperation(h, r.id, h.operations[r.id].(request := Empty)), WriteRequest)
    case WriteRequest =>
      if c.fails || r.id !in h.operations then (h, Leave(Raised, false, true))
      else (SetOperation(h, r.id, h.operations[r.id].(request := Full(r.hash))), KeepRequest)
    // request.json, which nothing reads back.
    case KeepRequest => if c.fails then (h, Leave(Raised, false, true)) else (h, Preflight)
    case Preflight => ActPreflight(h, r, c)
    case SaveBefore(i) =>
      if i >= TOOL_COUNT then (h, CreateResult(Installed, false))
      else if c.fails then (h, CreateResult(InstallationFailed, true))
      else if r.sent[i] then (h, ReplaceTool(i)) else (h, SaveBefore(i + 1))
    case ReplaceTool(i) =>
      if c.fails || i >= TOOL_COUNT then (h, CreateResult(InstallationFailed, true))
      else (h.(tools := h.tools[i := Some(r.after[i])]), VerifyTool(i))
    case VerifyTool(i) =>
      if c.fails || i >= TOOL_COUNT || h.tools[i] != Some(r.after[i]) then (h, CreateResult(InstallationFailed, true))
      else (h, SaveBefore(i + 1))
    case Invoke =>
      (h.(calls := h.calls + [r.id]),
       if c.interrupted then Leave(Returned(OperationIncomplete), true, true)
       else if c.fails then CreateResult(Fallback(r, false), true)
       else CreateResult(WrapperEnded(c.ok), false))
    case CreateResult(code, again) => ActCreate(h, r, code, again, c)
    case WriteResult(code, again) =>
      if r.id !in h.operations || (c.fails && !c.landed) then (h, Leave(WriteAnswer(r, code, again, true), false, true))
      else
        (SetOperation(h, r.id, h.operations[r.id].(result := Full(Outcome(r.hash, code)))), Leave(WriteAnswer(r, code, again, c.fails), false, true))
    case Leave(answer, keep, pinned) =>
      if keep then (h, Done(answer))
      else if pinned && !c.bound then (h, Done(if answer.Raised? then Raised else Returned(ControlPathChanged)))
      else if pinned && !c.still then (h, Done(answer))
      else if c.fails && !c.landed then (h, Done(Raised))
      else (h.(guard := None), Done(if c.fails then Raised else answer))
    case Done(_) => (h, f)
  }

  function ActPreflight(h: Host, r: Request, c: Choice): (Host, Phase)
    requires r.Valid() && |h.tools| == TOOL_COUNT
  {
    if c.fails || c.refused then (h, CreateResult(Fallback(r, false), true))
    else if r.action == Inspect then
      (h, if ToolsKnown(r, h.tools) then CreateResult(InspectionVerified, false) else CreateResult(InspectionRefused, true))
    else if !ToolsPass(r, h.tools) then (h, CreateResult(PreconditionFailed, true))
    else if r.action == Install then (h.(last := Some(r)), SaveBefore(0))
    else (h, Invoke)
  }

  /** immutable(result.json): the exclusive creation; a first failure falls back to storing the error. */
  function ActCreate(h: Host, r: Request, code: Code, again: bool, c: Choice): (Host, Phase) {
    if r.id !in h.operations then (h, Leave(Raised, false, true))
    else if again && h.operations[r.id].result != Absent then (h, Leave(Returned(code), false, true))
    else
      var stored := if again || c.bound then code else if r.action == Inspect then InspectionRefused else ControlPathChanged;
      if c.fails || h.operations[r.id].result != Absent then
        (h, if again then Leave(Raised, false, true) else CreateResult(Fallback(r, r.action == Install), true))
      else (SetOperation(h, r.id, h.operations[r.id].(result := Empty)), WriteResult(stored, again))
  }

  // ---------------------------------------------------------------- runs

  datatype Process = Process(request: Request, phase: Phase)

  /** The files and the executions that are running or have run; `used` are the processes there ever were. */
  datatype World = World(host: Host, processes: map<Pid, Process>, used: set<Pid>)

  /**
   * What can happen: an execution starts, takes its next step or dies where it
   * stands, and an operator takes away the guard of one that is not running.
   */
  datatype Event = Start(pid: Pid, request: Request) | Advance(pid: Pid, choice: Choice) | Crash(pid: Pid) | Clear

  predicate Running(f: Phase) { !f.Enter? && !f.Done? }

  /** The running execution that holds the guard. */
  function Holder(w: World): Option<Pid> {
    if w.host.guard.Some? && w.host.guard.value in w.processes && Running(w.processes[w.host.guard.value].phase)
    then w.host.guard else None
  }

  predicate Shaped(w: World) {
    |w.host.tools| == TOOL_COUNT && (forall p :: p in w.processes ==> w.processes[p].request.Valid() && p in w.used)
  }

  function Apply(w: World, e: Event): (next: World)
    requires Shaped(w)
    ensures Shaped(next)
  {
    match e
    case Start(pid, request) =>
      if pid in w.used || !request.Valid() then w
      else World(w.host, w.processes[pid := Process(request, Enter)], w.used + {pid})
    case Advance(pid, choice) =>
      if pid !in w.processes then w
      else
        var p := w.processes[pid];
        var (host, phase) := Act(w.host, pid, p.request, p.phase, choice);
        World(host, w.processes[pid := p.(phase := phase)], w.used)
    case Crash(pid) => w.(processes := w.processes - {pid})
    case Clear => if Holder(w).Some? then w else w.(host := w.host.(guard := None))
  }

  function Run(w: World, events: seq<Event>): (last: World)
    requires Shaped(w)
    ensures Shaped(last)
    decreases |events|
  {
    if events == [] then w else Run(Apply(w, events[0]), events[1..])
  }
}
