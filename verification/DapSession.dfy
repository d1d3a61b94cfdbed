/** A client session (internal/dap/session.go): what it sends for every request and every
    notice from the debugger, and what that amounts to over whole runs. Arguments appear as
    the outcome of decoding them; the backend as the success or failure of each call. */
module DapSession {

  import opened Prelude
  import opened DapLifecycle

  datatype Command =
    | Initialize
    | Attach
    | ConfigurationDone
    | Disconnect
    | Breakpoints(name: string)     // allowed while configuring and while attached
    | Inspection(name: string)      // allowed while attached
    | Unsupported(name: string)

  const BREAKPOINT_COMMANDS: set<string> := {"setBreakpoints", "setExceptionBreakpoints"}

  const ATTACHED_COMMANDS: set<string> := {
    "threads", "stackTrace", "scopes", "variables", "evaluate", "continue", "pause", "next", "stepIn", "stepOut",
    "readMemory", "writeMemory", "disassemble", "multi-dap/trace/open", "multi-dap/trace/poll", "multi-dap/trace/read",
    "multi-dap/trace/start", "multi-dap/trace/stop", "multi-dap/trace/close", "multi-dap/trace/status"}

  function CommandOf(name: string): Command {
    if name == "initialize" then Initialize
    else if name == "attach" then Attach
    else if name == "configurationDone" then ConfigurationDone
    else if name == "disconnect" then Disconnect
    else if name in BREAKPOINT_COMMANDS then Breakpoints(name)
    else if name in ATTACHED_COMMANDS then Inspection(name)
    else Unsupported(name)
  }

  /** What decoding the arguments for the request's command gives. */
  datatype Arguments = Arguments(
    decodable: bool,
    empty: bool,
    adapterID: string,
    pathFormat: string,
    terminateDebuggee: Option<bool>,
    suspendDebuggee: Option<bool>,
    acceptable: bool)               // the checks of the commands not modelled one by one

  /** reachesBackend and resultValid are for those commands too: whether they call the backend
      at all, and whether its result has the promised shape. */
  datatype Request = Request(
    isRequest: bool,
    seq_: int,
    command: string,
    arguments: Arguments,
    reachesBackend: bool,
    resultValid: bool)

  datatype Execution = Running | Stopped | Unknown

  datatype Message =
    | Response(seq_: int, requestSeq: int, command: Command, success: bool)
    | Event(seq_: int, event: string)

  datatype Call =
    | AttachCall(ok: bool)
    | ConfigurationDoneCall(ok: bool)
    | DisconnectCall(ok: bool)
    | OtherCall(ok: bool)

  datatype CallKind = ToAttach | ToConfigurationDone | ToDisconnect | ToOther

  function CallOf(kind: CallKind, ok: bool): Call {
    match kind
    case ToAttach => AttachCall(ok)
    case ToConfigurationDone => ConfigurationDoneCall(ok)
    case ToDisconnect => DisconnectCall(ok)
    case ToOther => OtherCall(ok)
  }

  /** The session, with all it has sent, asked of the backend and been asked. */
  datatype State = State(
    lifecycle: Lifecycle,
    nextSeq: int,
    backendAttached: bool,
    initialized: Option<Arguments>,
    out: seq<Message>,
    calls: seq<Call>,
    handled: seq<Request>)

  const NEW_STATE := State(NEW_LIFECYCLE, 1, false, None, [], [], [])

  // ---------- Building blocks ----------

  function Respond(s: State, requestSeq: int, command: Command, success: bool): State {
    s.(out := s.out + [Response(s.nextSeq, requestSeq, command, success)], nextSeq := s.nextSeq + 1)
  }

  function Reply(s: State, request: Request, success: bool): State {
    Respond(s, request.seq_, CommandOf(request.command), success)
  }

  function Fail(s: State, request: Request): State {
    Reply(s, request, false)
  }

  function Emit(s: State, event: string): State {
    s.(out := s.out + [Event(s.nextSeq, event)], nextSeq := s.nextSeq + 1)
  }

  /** The i-th call to the backend succeeds if oracle(i) does. */
  function Execute(s: State, oracle: nat -> bool, kind: CallKind): State {
    s.(calls := s.calls + [CallOf(kind, oracle(|s.calls|))])
  }

  function TargetMessages(s: State, execution: Execution): State {
    match execution
    case Running => Emit(s, "continued")
    case Stopped => Emit(s, "stopped")
    case Unknown => s
  }

  function ApplyEffect(s: State, effect: LifecycleEffect): State {
    match effect
    case InitializeResponse(q) => Respond(s, q, Initialize, true)
    case Initialized => Emit(s, "initialized")
    case ConfigurationDoneResponse(q) => Respond(s, q, ConfigurationDone, true)
    case AttachResponse(q) => Respond(s, q, Attach, true)
    case PublishTargetState => s
    case DisconnectResponse(q) => Respond(s, q, Disconnect, true)
  }

  function ApplyEffects(s: State, effects: seq<LifecycleEffect>): State {
    if effects == [] then s
    else ApplyEffect(ApplyEffects(s, effects[..|effects| - 1]), effects[|effects| - 1])
  }

  /** The lifecycle takes the event and its effects are sent, or the request fails. */
  function Advance(s: State, request: Request, event: LifecycleEvent): State {
    var r := ReduceLifecycle(s.lifecycle, event);
    if r.Err? then Fail(s, request) else ApplyEffects(s.(lifecycle := r.value.0), r.value.1)
  }

  // ---------- Requests ----------

  function OnInitialize(s: State, request: Request): State {
    var a := request.arguments;
    if !a.decodable || a.adapterID == "" || (a.pathFormat != "path" && a.pathFormat != "uri") then Fail(s, request)
    else
      var r := ReduceLifecycle(s.lifecycle, InitializeRequested(request.seq_));
      if r.Err? then Fail(s, request)
      else ApplyEffects(s.(lifecycle := r.value.0, initialized := Some(a)), r.value.1)
  }

  function OnAttach(s: State, oracle: nat -> bool, request: Request): State {
    if !request.arguments.decodable || s.lifecycle.phase != AwaitAttach then Fail(s, request)
    else if !oracle(|s.calls|) then Fail(Execute(s, oracle, ToAttach), request)
    else
      var s := Execute(s, oracle, ToAttach).(backendAttached := true);
      var r := ReduceLifecycle(s.lifecycle, AttachRequested(request.seq_));
      if r.Err? then Fail(Execute(s, oracle, ToDisconnect).(backendAttached := false), request)
      else ApplyEffects(s.(lifecycle := r.value.0), r.value.1)
  }

  function OnConfigurationDone(s: State, oracle: nat -> bool, request: Request): State {
    if !request.arguments.empty || s.lifecycle.phase != Configuring then Fail(s, request)
    else if !oracle(|s.calls|) then Fail(Execute(s, oracle, ToConfigurationDone), request)
    else Advance(Execute(s, oracle, ToConfigurationDone), request, ConfigurationCompleted(request.seq_))
  }

  function OnDisconnect(s: State, oracle: nat -> bool, request: Request): State {
    var a := request.arguments;
    if !a.decodable || a.terminateDebuggee == Some(true) || a.suspendDebuggee == Some(true) then Fail(s, request)
    else if s.lifecycle.phase == Disconnected then Fail(s, request)
    else if s.backendAttached && !oracle(|s.calls|) then Fail(Execute(s, oracle, ToDisconnect), request)
    else
      var s := if s.backendAttached then Execute(s, oracle, ToDisconnect).(backendAttached := false) else s;
      Advance(s, request, DisconnectRequested(request.seq_))
  }

  /** The commands that leave the lifecycle alone. */
  function OnOther(s: State, oracle: nat -> bool, request: Request, allowed: bool): State {
    if !allowed || !request.arguments.acceptable then Fail(s, request)
    else if !request.reachesBackend then Reply(s, request, true)
    else
      var ok := oracle(|s.calls|);
      Reply(Execute(s, oracle, ToOther), request, ok && request.resultValid)
  }

  function Handle(s: State, oracle: nat -> bool, request: Request): State {
    var s := s.(handled := s.handled + [request]);
    var phase := s.lifecycle.phase;
    if !request.isRequest then Fail(s, request)
    else
      match CommandOf(request.command)
      case Initialize => OnInitialize(s, request)
      case Attach => OnAttach(s, oracle, request)
      case ConfigurationDone => OnConfigurationDone(s, oracle, request)
      case Disconnect => OnDisconnect(s, oracle, request)
      case Breakpoints(_) => OnOther(s, oracle, request, phase == Configuring || phase == Attached)
      case Inspection(_) => OnOther(s, oracle, request, phase == Attached)
      case Unsupported(_) => Fail(s, request)
  }

  // ---------- Notices ----------

  function Publish(s: State, execution: Execution): State {
    var r := ReduceLifecycle(s.lifecycle, TargetMoved);
    if r.Err? then s
    else
      var s := s.(lifecycle := r.value.0);
      if r.value.1 == [] then s else TargetMessages(s, execution)
  }

  function PublishOutput(s: State, output: string): State {
    if s.lifecycle.phase != Attached || output == "" then s else Emit(s, "output")
  }

  function Terminate(s: State): State {
    if s.lifecycle.phase == AwaitInitialize || s.lifecycle.phase == Disconnected then s
    else Emit(s.(lifecycle := s.lifecycle.(phase := Disconnected)), "terminated")
  }

  /** The transport is lost; nothing is sent. */
  function Close(s: State, oracle: nat -> bool): State {
    if !s.backendAttached then s
    else if !oracle(|s.calls|) then Execute(s, oracle, ToDisconnect)
    else Execute(s, oracle, ToDisconnect).(backendAttached := false, lifecycle := s.lifecycle.(phase := Disconnected))
  }

  datatype Input =
    | Asked(request: Request)
    | TargetChanged(execution: Execution)
    | Output(output: string)
    | Terminated
    | Closed

  function Step(s: State, oracle: nat -> bool, input: Input): State {
    match input
    case Asked(request) => Handle(s, oracle, request)
    case TargetChanged(execution) => Publish(s, execution)
    case Output(output) => PublishOutput(s, output)
    case Terminated => Terminate(s)
    case Closed => Close(s, oracle)
  }

  function Run(oracle: nat -> bool, inputs: seq<Input>): State {
    if inputs == [] then NEW_STATE else Step(Run(oracle, inputs[..|inputs| - 1]), oracle, inputs[|inputs| - 1])
  }
}
