/** Exactly what a session does with every request and every notice, and hence exactly which events
    the client sees over a whole run. */
module DapSessionTold {

  import opened Prelude
  import opened DapLifecycle
  import opened DapSession
  import opened DapSessionRuns

  // ---------- Requests ----------

  /** The request may be served in this phase and its arguments are in order. */
  predicate WellAsked(phase: Phase, request: Request) {
    var a := request.arguments;
    && request.isRequest
    && match CommandOf(request.command)
       case Initialize =>
         phase == AwaitInitialize && a.decodable && a.adapterID != ""
         && (a.pathFormat == "path" || a.pathFormat == "uri")
       case Attach => phase == AwaitAttach && a.decodable
       case ConfigurationDone => phase == Configuring && a.empty
       case Disconnect =>
         phase != Disconnected && a.decodable && a.terminateDebuggee != Some(true) && a.suspendDebuggee != Some(true)
       case Breakpoints(_) => (phase == Configuring || phase == Attached) && a.acceptable
       case Inspection(_) => phase == Attached && a.acceptable
       case Unsupported(_) => false
  }

  /** The call to the backend that a request leads to. */
  function CallFor(s: State, request: Request): Option<CallKind> {
    if !WellAsked(s.lifecycle.phase, request) then None
    else
      match CommandOf(request.command)
      case Initialize => None
      case Attach => Some(ToAttach)
      case ConfigurationDone => Some(ToConfigurationDone)
      case Disconnect => if s.backendAttached then Some(ToDisconnect) else None
      case _ => if request.reachesBackend then Some(ToOther) else None
  }

  /** The request is well asked, and the backend, if called, does what it is asked and answers in shape. */
  predicate Granted(s: State, oracle: nat -> bool, request: Request) {
    && WellAsked(s.lifecycle.phase, request)
    && (CallFor(s, request).Some? ==> oracle(|s.calls|))
    && (CallFor(s, request) == Some(ToOther) ==> request.resultValid)
  }

  /** Where a granted request takes the session. */
  function PhaseAfter(phase: Phase, command: Command): Phase {
    match command
    case Initialize => AwaitAttach
    case Attach => Configuring
    case ConfigurationDone => Attached
    case Disconnect => Disconnected
    case _ => phase
  }

  /** What the client is told: that its request was granted or not, except that a granted attach is
      answered after the granted configurationDone. */
  function Told(s: State, request: Request, granted: bool): seq<Message> {
    var command := CommandOf(request.command);
    if granted && command == Attach then [Event(s.nextSeq, "initialized")]
    else if granted && command == ConfigurationDone then
      [Response(s.nextSeq, request.seq_, command, true),
       Response(s.nextSeq + 1, s.lifecycle.pendingAttachSeq, Attach, true)]
    else [Response(s.nextSeq, request.seq_, command, granted)]
  }

  /** t is s after the request: it is granted exactly on the conditions above, and nothing else
      decides what is sent, called and kept. */
  predicate Served(s: State, oracle: nat -> bool, request: Request, t: State) {
    var granted, call, command := Granted(s, oracle, request), CallFor(s, request), CommandOf(request.command);
    && t.out == s.out + Told(s, request, granted) && t.nextSeq == s.nextSeq + |Told(s, request, granted)|
    && t.calls == s.calls + (if call.Some? then [CallOf(call.value, oracle(|s.calls|))] else [])
    && t.lifecycle.phase == (if granted then PhaseAfter(s.lifecycle.phase, command) else s.lifecycle.phase)
    && t.lifecycle.pendingAttachSeq
       == (if granted && command == Attach then request.seq_ else s.lifecycle.pendingAttachSeq)
    && t.backendAttached
       == (if granted && command == Attach then true else s.backendAttached && !(granted && command == Disconnect))
    && t.initialized == (if granted && command == Initialize then Some(request.arguments) else s.initialized)
    && t.handled == s.handled + [request]
  }

  lemma EarlyServed(s: State, oracle: nat -> bool, request: Request)
    requires request.isRequest && (CommandOf(request.command) == Initialize || CommandOf(request.command) == Attach)
    ensures Served(s, oracle, request, Handle(s, oracle, request))
  {
    var t := s.(handled := s.handled + [request]);
    InitializeIs(t, request);
    AttachIs(t, oracle, request);
    hide OnInitialize, OnAttach, OnConfigurationDone, OnDisconnect, OnOther, CommandOf;
  }

  lemma ConfigurationDoneServed(s: State, oracle: nat -> bool, request: Request)
    requires request.isRequest && CommandOf(request.command) == ConfigurationDone
    ensures Served(s, oracle, request, Handle(s, oracle, request))
  {
    var t := s.(handled := s.handled + [request]);
    ConfigurationDoneIs(t, oracle, request);
    hide OnInitialize, OnAttach, OnConfigurationDone, OnDisconnect, OnOther, CommandOf;
  }

  lemma DisconnectServed(s: State, oracle: nat -> bool, request: Request)
    requires request.isRequest && CommandOf(request.command) == Disconnect
    ensures Served(s, oracle, request, Handle(s, oracle, request))
  {
    var t := s.(handled := s.handled + [request]);
    DisconnectIs(t, oracle, request);
    hide OnInitialize, OnAttach, OnConfigurationDone, OnDisconnect, OnOther, CommandOf;
  }

  lemma OtherServed(s: State, oracle: nat -> bool, request: Request)
    requires request.isRequest ==> var command := CommandOf(request.command);
                                   command.Breakpoints? || command.Inspection? || command.Unsupported?
    ensures Served(s, oracle, request, Handle(s, oracle, request))
  {
    hide OnInitialize, OnAttach, OnConfigurationDone, OnDisconnect, CommandOf;
  }

  /** Every request, in every state, whatever the backend does. */
  lemma RequestExactly(s: State, oracle: nat -> bool, request: Request)
    ensures Served(s, oracle, request, Handle(s, oracle, request))
  {
    hide Served, Handle, CommandOf;
    if !request.isRequest {
      OtherServed(s, oracle, request);
    } else {
      match CommandOf(request.command)
      case Initialize => EarlyServed(s, oracle, request);
      case Attach => EarlyServed(s, oracle, request);
      case ConfigurationDone => ConfigurationDoneServed(s, oracle, request);
      case Disconnect => DisconnectServed(s, oracle, request);
      case _ => OtherServed(s, oracle, request);
    }
  }

  // ---------- Notices ----------

  /** The name the client is to hear for a state of the target; an unknown state is not announced. */
  function NameOf(execution: Execution): Option<string> {
    match execution
    case Stopped => Some("stopped")
    case Running => Some("continued")
    case Unknown => None
  }

  /** The event a notice leads to in a phase. */
  function Announced(phase: Phase, input: Input): Option<string>
    requires !input.Asked?
  {
    match input
    case TargetChanged(execution) => if phase == Attached then NameOf(execution) else None
    case Output(output) => if phase == Attached && output != "" then Some("output") else None
    case Terminated => if phase == AwaitInitialize || phase == Disconnected then None else Some("terminated")
    case Closed => None
  }

  /** Losing the transport gives the backend back, if it lets go. */
  predicate LetsGo(s: State, oracle: nat -> bool, input: Input) {
    input.Closed? && s.backendAttached && oracle(|s.calls|)
  }

  /** Every notice, in every state. */
  lemma NoticeExactly(s: State, oracle: nat -> bool, input: Input)
    requires !input.Asked?
    ensures var t, name := Step(s, oracle, input), Announced(s.lifecycle.phase, input);
            && t.out == s.out + (if name.Some? then [Event(s.nextSeq, name.value)] else [])
            && t.nextSeq == s.nextSeq + (if name.Some? then 1 else 0)
            && t.lifecycle == (if name == Some("terminated") || LetsGo(s, oracle, input)
                               then s.lifecycle.(phase := Disconnected) else s.lifecycle)
            && t.calls == s.calls +
                          (if input.Closed? && s.backendAttached then [DisconnectCall(oracle(|s.calls|))] else [])
            && t.backendAttached == (s.backendAttached && !LetsGo(s, oracle, input))
            && t.initialized == s.initialized && t.handled == s.handled
  {
    NamesDiffer();
  }

  lemma NamesDiffer()
    ensures "terminated" != "output" && "terminated" != "stopped" && "terminated" != "continued"
    ensures "stopped" != "continued" && "stopped" != "output" && "continued" != "output"
    ensures "initialized" != "stopped" && "initialized" != "continued"
  {
    assert |"terminated"| == 10 && |"output"| == 6 && |"stopped"| == 7 && |"continued"| == 9 && |"initialized"| == 11;
  }

  // ---------- Whole runs ----------

  /** The names of all events, in the order they were sent. */
  function EventNames(out: seq<Message>): seq<string> {
    if out == [] then []
    else EventNames(out[..|out| - 1]) + if out[|out| - 1].Event? then [out[|out| - 1].event] else []
  }

  /** What one input lets the client hear. */
  function HeardOf(s: State, oracle: nat -> bool, input: Input): seq<string> {
    if input.Asked? then
      if Granted(s, oracle, input.request) && CommandOf(input.request.command) == Attach then ["initialized"] else []
    else
      var name := Announced(s.lifecycle.phase, input);
      if name.Some? then [name.value] else []
  }

  function Heard(oracle: nat -> bool, inputs: seq<Input>): seq<string> {
    if inputs == [] then []
    else
      var front := inputs[..|inputs| - 1];
      Heard(oracle, front) + HeardOf(Run(oracle, front), oracle, inputs[|inputs| - 1])
  }

  lemma {:induction false} NamesAppended(out: seq<Message>, more: seq<Message>)
    ensures EventNames(out + more) == EventNames(out) + EventNames(more)
  {
    if more == [] {
      assert out + more == out;
    } else {
      NamesAppended(out, more[..|more| - 1]);
      assert (out + more)[..|out + more| - 1] == out + more[..|more| - 1];
    }
  }

  lemma NamesOf(m: Message, n: Message)
    ensures EventNames([m]) == if m.Event? then [m.event] else []
    ensures m.Response? && n.Response? ==> EventNames([m, n]) == []
    ensures EventNames([]) == []
  {
    assert [m][..0] == [] && [m, n][..1] == [m];
  }

  lemma StepHeard(s: State, oracle: nat -> bool, input: Input)
    ensures EventNames(Step(s, oracle, input).out) == EventNames(s.out) + HeardOf(s, oracle, input)
  {
    hide EventNames, Granted;
    if input.Asked? {
      var told := Told(s, input.request, Granted(s, oracle, input.request));
      RequestExactly(s, oracle, input.request);
      hide Handle, CommandOf;
      NamesAppended(s.out, told);
      NamesOf(told[0], told[|told| - 1]);
      assert |told| == 1 ==> told == [told[0]];
      assert |told| == 2 ==> told == [told[0], told[1]];
    } else {
      NoticeExactly(s, oracle, input);
      hide Step;
      var name := Announced(s.lifecycle.phase, input);
      if name.Some? {
        NamesAppended(s.out, [Event(s.nextSeq, name.value)]);
        NamesOf(Event(s.nextSeq, name.value), Event(s.nextSeq, name.value));
      } else {
        assert s.out + [] == s.out;
      }
    }
  }

  /** The events of every run are exactly those its inputs call for, each in the phase it came in,
      in order. */
  lemma {:induction false} EventsExactly(oracle: nat -> bool, inputs: seq<Input>)
    ensures EventNames(Run(oracle, inputs).out) == Heard(oracle, inputs)
  {
    if inputs != [] {
      hide Step, EventNames, HeardOf;
      EventsExactly(oracle, inputs[..|inputs| - 1]);
      StepHeard(Run(oracle, inputs[..|inputs| - 1]), oracle, inputs[|inputs| - 1]);
    } else {
      assert NEW_STATE.out == [];
    }
  }

  /** The last of the two names that tell whether the target runs. */
  function LastTarget(names: seq<string>): Option<string> {
    if names == [] then None
    else
      var last := names[|names| - 1];
      if last == "stopped" || last == "continued" then Some(last) else LastTarget(names[..|names| - 1])
  }

  /** The last known state of the target published while the client was attached. */
  function LastPublished(oracle: nat -> bool, inputs: seq<Input>): Option<Execution> {
    if inputs == [] then None
    else
      var front, last := inputs[..|inputs| - 1], inputs[|inputs| - 1];
      if last.TargetChanged? && last.execution != Unknown && Run(oracle, front).lifecycle.phase == Attached
      then Some(last.execution) else LastPublished(oracle, front)
  }

  lemma LastAppended(names: seq<string>, more: seq<string>)
    requires |more| <= 1
    ensures LastTarget(names + more)
         == if more == ["stopped"] || more == ["continued"] then Some(more[0]) else LastTarget(names)
  {
    if more == [] {
      assert names + more == names;
    } else {
      assert more == [more[0]] && (names + more)[..|names|] == names;
    }
  }

  lemma TargetHeard(s: State, oracle: nat -> bool, input: Input)
    ensures var more, attached := HeardOf(s, oracle, input), s.lifecycle.phase == Attached;
            && |more| <= 1
            && (more == ["stopped"] <==> attached && input == TargetChanged(Stopped))
            && (more == ["continued"] <==> attached && input == TargetChanged(Running))
  {
    hide Granted, CommandOf;
    NamesDiffer();
    var more := HeardOf(s, oracle, input);
    assert |more| == 1 ==> more == [more[0]] && ["stopped"][0] == "stopped" && ["continued"][0] == "continued";
  }

  /** What the client believes of the target is what it was last told: stopped if and only if the
      last state published was stopped, running if and only if it was running. */
  lemma {:induction false} ClientBelieves(oracle: nat -> bool, inputs: seq<Input>)
    ensures var told, published := LastTarget(EventNames(Run(oracle, inputs).out)), LastPublished(oracle, inputs);
            && (told == Some("stopped") <==> published == Some(Stopped))
            && (told == Some("continued") <==> published == Some(Running))
  {
    EventsExactly(oracle, inputs);
    NamesDiffer();
    if inputs != [] {
      var front, last := inputs[..|inputs| - 1], inputs[|inputs| - 1];
      ClientBelieves(oracle, front);
      EventsExactly(oracle, front);
      hide EventNames, HeardOf, Run, LastTarget;
      TargetHeard(Run(oracle, front), oracle, last);
      LastAppended(Heard(oracle, front), HeardOf(Run(oracle, front), oracle, last));
    }
  }
}
