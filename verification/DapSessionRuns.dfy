/** What holds of a session over every run: numbering, one response per request, the place of
    the attach response, silence before it and after the end, and backend ownership. */
module DapSessionRuns {

  import opened Prelude
  import opened DapLifecycle
  import opened DapSession

  // ---------- Vocabulary ----------

  predicate IsAttachAnswer(m: Message) {
    m.Response? && m.command.Attach? && m.success
  }

  predicate IsConfigured(m: Message) {
    m.Response? && m.command.ConfigurationDone? && m.success
  }

  predicate IsTargetEvent(m: Message) {
    m.Event? && (m.event == "continued" || m.event == "stopped" || m.event == "output")
  }

  /** What tells the client that the session is over. */
  predicate IsFarewell(m: Message) {
    (m.Response? && m.command.Disconnect? && m.success) || (m.Event? && m.event == "terminated")
  }

  ghost predicate AnsweredBefore(out: seq<Message>, j: nat)
    requires j <= |out|
  {
    exists k :: 0 <= k < j && IsAttachAnswer(out[k])
  }

  function Responses(out: seq<Message>): nat {
    if out == [] then 0 else Responses(out[..|out| - 1]) + if out[|out| - 1].Response? then 1 else 0
  }

  function Answers(out: seq<Message>): nat {
    if out == [] then 0 else Answers(out[..|out| - 1]) + if IsAttachAnswer(out[|out| - 1]) then 1 else 0
  }

  function Attaches(calls: seq<Call>): nat {
    if calls == [] then 0
    else Attaches(calls[..|calls| - 1]) + if calls[|calls| - 1] == AttachCall(true) then 1 else 0
  }

  function Disconnects(calls: seq<Call>): nat {
    if calls == [] then 0
    else Disconnects(calls[..|calls| - 1]) + if calls[|calls| - 1] == DisconnectCall(true) then 1 else 0
  }

  // ---------- Invariants ----------

  /** Messages are numbered from one without gaps. */
  ghost predicate Numbered(s: State) {
    s.nextSeq == |s.out| + 1 && forall i :: 0 <= i < |s.out| ==> s.out[i].seq_ == i + 1
  }

  /** The attach response comes at most once, for the attach that was accepted, directly after a
      successful configurationDone response; target events come after it and before any end. */
  ghost predicate WellTold(out: seq<Message>, attachSeq: int) {
    && (forall k, l :: 0 <= k < |out| && 0 <= l < |out| && IsAttachAnswer(out[k]) && IsAttachAnswer(out[l]) ==> k == l)
    && (forall k :: 0 <= k < |out| && IsAttachAnswer(out[k]) ==>
                      k > 0 && IsConfigured(out[k - 1]) && out[k].requestSeq == attachSeq)
    && (forall j :: 0 <= j < |out| && IsTargetEvent(out[j]) ==> AnsweredBefore(out, j))
    && (forall d, j :: 0 <= d < j < |out| && IsTargetEvent(out[j]) ==> !IsFarewell(out[d]))
  }

  ghost predicate Told(s: State) {
    && WellTold(s.out, s.lifecycle.pendingAttachSeq)
    && (Rank(s.lifecycle.phase) < 3 ==> !AnsweredBefore(s.out, |s.out|))
    && (s.lifecycle.phase == Attached ==> AnsweredBefore(s.out, |s.out|))
    && (Rank(s.lifecycle.phase) < 4 ==> forall d :: 0 <= d < |s.out| ==> !IsFarewell(s.out[d]))
  }

  /** The backend is held exactly while an attach is not undone, and while the client is
      between attach and the end. */
  ghost predicate Held(s: State) {
    && Attaches(s.calls) - Disconnects(s.calls) == (if s.backendAttached then 1 else 0)
    && Attaches(s.calls) <= 1
    && (Rank(s.lifecycle.phase) < 2 ==> Attaches(s.calls) == 0)
    && (s.lifecycle.phase == Configuring || s.lifecycle.phase == Attached ==> s.backendAttached)
  }

  /** Every request has its response, except an accepted attach that is not answered yet, and
      the owed one that is being handled. */
  ghost predicate Replied(s: State, owed: nat) {
    && Responses(s.out) + owed == |s.handled| - Attaches(s.calls) + Answers(s.out)
    && Answers(s.out) <= Attaches(s.calls)
    && (Rank(s.lifecycle.phase) < 3 ==> Answers(s.out) == 0)
    && (s.lifecycle.phase == Attached ==> Answers(s.out) == 1)
  }

  ghost predicate Inv(s: State, owed: nat) {
    Numbered(s) && Told(s) && Held(s) && Replied(s, owed)
  }

  // ---------- Appending ----------

  lemma Appended(out: seq<Message>, m: Message)
    ensures Responses(out + [m]) == Responses(out) + if m.Response? then 1 else 0
    ensures Answers(out + [m]) == Answers(out) + if IsAttachAnswer(m) then 1 else 0
  {
    assert (out + [m])[..|out|] == out;
  }

  lemma Called(calls: seq<Call>, c: Call)
    ensures Attaches(calls + [c]) == Attaches(calls) + if c == AttachCall(true) then 1 else 0
    ensures Disconnects(calls + [c]) == Disconnects(calls) + if c == DisconnectCall(true) then 1 else 0
  {
    assert (calls + [c])[..|calls|] == calls;
  }

  lemma AppendWellTold(out: seq<Message>, m: Message, attachSeq: int)
    requires WellTold(out, attachSeq)
    requires IsAttachAnswer(m) ==>
               !AnsweredBefore(out, |out|) && out != [] && IsConfigured(out[|out| - 1]) && m.requestSeq == attachSeq
    requires IsTargetEvent(m) ==> AnsweredBefore(out, |out|) && forall d :: 0 <= d < |out| ==> !IsFarewell(out[d])
    ensures WellTold(out + [m], attachSeq)
    ensures AnsweredBefore(out + [m], |out| + 1) <==> AnsweredBefore(out, |out|) || IsAttachAnswer(m)
  {
    var next := out + [m];
    assert next[|out|] == m;
    forall j | 0 <= j < |next| && IsTargetEvent(next[j]) ensures AnsweredBefore(next, j) {
      var k :| 0 <= k < j && IsAttachAnswer(out[k]);
      assert IsAttachAnswer(next[k]);
    }
    if AnsweredBefore(out, |out|) {
      var k :| 0 <= k < |out| && IsAttachAnswer(out[k]);
      assert IsAttachAnswer(next[k]);
    }
  }

  /** A response that is neither a successful attach nor a successful disconnect. */
  lemma PlainReply(s: State, requestSeq: int, command: Command, success: bool)
    requires Inv(s, 1) && (success ==> !command.Attach? && !command.Disconnect?)
    ensures Inv(Respond(s, requestSeq, command, success), 0)
  {
    hide Responses, Answers, Attaches, Disconnects, AnsweredBefore, WellTold;
    var m := Response(s.nextSeq, requestSeq, command, success);
    Appended(s.out, m);
    AppendWellTold(s.out, m, s.lifecycle.pendingAttachSeq);
  }

  /** An event that says nothing about the target and does not end the session. */
  lemma PlainEvent(s: State, event: string, owed: nat)
    requires Inv(s, owed) && event == "initialized"
    ensures Inv(Emit(s, event), owed)
  {
    hide Responses, Answers, Attaches, Disconnects, AnsweredBefore, WellTold;
    var m := Event(s.nextSeq, event);
    Appended(s.out, m);
    AppendWellTold(s.out, m, s.lifecycle.pendingAttachSeq);
  }

  lemma TargetEvent(s: State, event: string)
    requires Inv(s, 0) && s.lifecycle.phase == Attached
    requires event == "continued" || event == "stopped" || event == "output"
    ensures Inv(Emit(s, event), 0)
  {
    hide Responses, Answers, Attaches, Disconnects, AnsweredBefore, WellTold;
    var m := Event(s.nextSeq, event);
    Appended(s.out, m);
    AppendWellTold(s.out, m, s.lifecycle.pendingAttachSeq);
  }

  /** A call that neither attaches nor disconnects. */
  lemma PlainCall(s: State, c: Call, owed: nat)
    requires Inv(s, owed) && c != AttachCall(true) && c != DisconnectCall(true)
    ensures Inv(s.(calls := s.calls + [c]), owed)
  {
    hide Responses, Answers, Attaches, Disconnects, AnsweredBefore, WellTold;
    Called(s.calls, c);
  }

  // ---------- The requests ----------

  lemma OneEffect(s: State, e: LifecycleEffect)
    ensures ApplyEffects(s, [e]) == ApplyEffect(s, e)
  {
    assert [e][..0] == [];
  }

  lemma TwoEffects(s: State, e: LifecycleEffect, f: LifecycleEffect)
    ensures ApplyEffects(s, [e, f]) == ApplyEffect(ApplyEffect(s, e), f)
  {
    assert [e, f][..1] == [e];
    OneEffect(s, e);
  }

  lemma InitializeKeeps(s: State, request: Request)
    requires Inv(s, 1)
    ensures Inv(OnInitialize(s, request), 0)
  {
    hide Inv, ApplyEffects;
    PlainReply(s, request.seq_, CommandOf(request.command), false);
    if s.lifecycle.phase == AwaitInitialize {
      var t := s.(lifecycle := s.lifecycle.(phase := AwaitAttach), initialized := Some(request.arguments));
      MoveEarly(s, t);
      PlainReply(t, request.seq_, Initialize, true);
      OneEffect(t, InitializeResponse(request.seq_));
    }
  }

  lemma MoveEarly(s: State, t: State)
    requires Inv(s, 1) && s.lifecycle.phase == AwaitInitialize
    requires t == s.(lifecycle := s.lifecycle.(phase := AwaitAttach), initialized := t.initialized)
    ensures Inv(t, 1)
  {
    hide Responses, Answers, Attaches, Disconnects, AnsweredBefore, WellTold;
  }

  /** No answer was given yet, so any later attach may be the one it is for. */
  lemma AnyAttach(out: seq<Message>, attachSeq: int, other: int)
    requires WellTold(out, attachSeq) && !AnsweredBefore(out, |out|)
    ensures WellTold(out, other)
  {
  }

  lemma AttachAccepted(s: State, t: State, seq_: int)
    requires Inv(s, 1) && s.lifecycle.phase == AwaitAttach
    requires t == s.(calls := s.calls + [AttachCall(true)], backendAttached := true,
                  lifecycle := Lifecycle(Configuring, seq_))
    ensures Inv(t, 0)
  {
    hide Responses, Answers, Attaches, Disconnects, AnsweredBefore, WellTold;
    Called(s.calls, AttachCall(true));
    AnyAttach(s.out, s.lifecycle.pendingAttachSeq, seq_);
  }

  lemma AttachKeeps(s: State, oracle: nat -> bool, request: Request)
    requires Inv(s, 1)
    ensures Inv(OnAttach(s, oracle, request), 0)
  {
    hide Inv, ApplyEffects;
    PlainReply(s, request.seq_, CommandOf(request.command), false);
    if request.arguments.decodable && s.lifecycle.phase == AwaitAttach {
      if oracle(|s.calls|) {
        var configuring := Lifecycle(Configuring, request.seq_);
        var t := s.(calls := s.calls + [AttachCall(true)], backendAttached := true, lifecycle := configuring);
        AttachAccepted(s, t, request.seq_);
        PlainEvent(t, "initialized", 0);
        OneEffect(t, Initialized);
      } else {
        PlainCall(s, AttachCall(false), 1);
        PlainReply(Execute(s, oracle, ToAttach), request.seq_, CommandOf(request.command), false);
      }
    }
  }

  /** The configurationDone response and the attach response behind it. */
  lemma Configured(s: State, requestSeq: int)
    requires Inv(s, 1) && s.lifecycle.phase == Configuring
    ensures var t := s.(lifecycle := s.lifecycle.(phase := Attached));
            Inv(Respond(Respond(t, requestSeq, ConfigurationDone, true), s.lifecycle.pendingAttachSeq, Attach, true), 0)
  {
    hide Responses, Answers, Attaches, Disconnects, AnsweredBefore, WellTold;
    var attachSeq := s.lifecycle.pendingAttachSeq;
    var m := Response(s.nextSeq, requestSeq, ConfigurationDone, true);
    var n := Response(s.nextSeq + 1, attachSeq, Attach, true);
    Appended(s.out, m);
    AppendWellTold(s.out, m, attachSeq);
    Appended(s.out + [m], n);
    AppendWellTold(s.out + [m], n, attachSeq);
  }

  lemma ConfigurationDoneKeeps(s: State, oracle: nat -> bool, request: Request)
    requires Inv(s, 1)
    ensures Inv(OnConfigurationDone(s, oracle, request), 0)
  {
    hide Inv, ApplyEffects;
    PlainReply(s, request.seq_, CommandOf(request.command), false);
    if s.lifecycle.phase == Configuring {
      var t := Execute(s, oracle, ToConfigurationDone);
      PlainCall(s, ConfigurationDoneCall(oracle(|s.calls|)), 1);
      PlainReply(t, request.seq_, CommandOf(request.command), false);
      Configured(t, request.seq_);
      TwoEffects(t.(lifecycle := t.lifecycle.(phase := Attached)), ConfigurationDoneResponse(request.seq_),
                 AttachResponse(t.lifecycle.pendingAttachSeq));
    }
  }

  /** The backend is given up and the client told so. */
  lemma Parted(s: State, t: State, requestSeq: int)
    requires Inv(s, 1) && s.lifecycle.phase != Disconnected
    requires t == if s.backendAttached then s.(calls := s.calls + [DisconnectCall(true)], backendAttached := false)
                  else s
    ensures Inv(Respond(t.(lifecycle := t.lifecycle.(phase := Disconnected)), requestSeq, Disconnect, true), 0)
  {
    hide Responses, Answers, Attaches, Disconnects, AnsweredBefore, WellTold;
    var m := Response(s.nextSeq, requestSeq, Disconnect, true);
    Called(s.calls, DisconnectCall(true));
    Appended(s.out, m);
    AppendWellTold(s.out, m, s.lifecycle.pendingAttachSeq);
  }

  lemma DisconnectKeeps(s: State, oracle: nat -> bool, request: Request)
    requires Inv(s, 1)
    ensures Inv(OnDisconnect(s, oracle, request), 0)
  {
    hide Inv, ApplyEffects;
    PlainReply(s, request.seq_, CommandOf(request.command), false);
    if s.lifecycle.phase != Disconnected {
      if s.backendAttached && !oracle(|s.calls|) {
        PlainCall(s, DisconnectCall(false), 1);
        PlainReply(Execute(s, oracle, ToDisconnect), request.seq_, CommandOf(request.command), false);
      } else {
        var t := if s.backendAttached then Execute(s, oracle, ToDisconnect).(backendAttached := false) else s;
        Parted(s, t, request.seq_);
        OneEffect(t.(lifecycle := t.lifecycle.(phase := Disconnected)), DisconnectResponse(request.seq_));
      }
    }
  }

  lemma OtherKeeps(s: State, oracle: nat -> bool, request: Request, allowed: bool)
    requires Inv(s, 1) && (CommandOf(request.command).Breakpoints? || CommandOf(request.command).Inspection?)
    ensures Inv(OnOther(s, oracle, request, allowed), 0)
  {
    hide Inv;
    PlainReply(s, request.seq_, CommandOf(request.command), false);
    PlainReply(s, request.seq_, CommandOf(request.command), true);
    PlainCall(s, OtherCall(oracle(|s.calls|)), 1);
    PlainReply(Execute(s, oracle, ToOther), request.seq_, CommandOf(request.command),
               oracle(|s.calls|) && request.resultValid);
  }

  lemma Owes(s: State, request: Request)
    requires Inv(s, 0)
    ensures Inv(s.(handled := s.handled + [request]), 1)
  {
    hide Responses, Answers, Attaches, Disconnects, AnsweredBefore, WellTold;
  }

  lemma HandleKeeps(s: State, oracle: nat -> bool, request: Request)
    requires Inv(s, 0)
    ensures Inv(Handle(s, oracle, request), 0)
  {
    hide Inv, CommandOf, OnInitialize, OnAttach, OnConfigurationDone, OnDisconnect, OnOther;
    var t := s.(handled := s.handled + [request]);
    Owes(s, request);
    if !request.isRequest {
      PlainReply(t, request.seq_, CommandOf(request.command), false);
    } else {
      match CommandOf(request.command)
      case Initialize => InitializeKeeps(t, request);
      case Attach => AttachKeeps(t, oracle, request);
      case ConfigurationDone => ConfigurationDoneKeeps(t, oracle, request);
      case Disconnect => DisconnectKeeps(t, oracle, request);
      case Breakpoints(_) =>
        OtherKeeps(t, oracle, request, t.lifecycle.phase == Configuring || t.lifecycle.phase == Attached);
      case Inspection(_) => OtherKeeps(t, oracle, request, t.lifecycle.phase == Attached);
      case Unsupported(_) => PlainReply(t, request.seq_, CommandOf(request.command), false);
    }
  }

  // ---------- The notices ----------

  lemma TerminateKeeps(s: State)
    requires Inv(s, 0)
    ensures Inv(Terminate(s), 0)
  {
    hide Responses, Answers, Attaches, Disconnects, AnsweredBefore, WellTold;
    var m := Event(s.nextSeq, "terminated");
    Appended(s.out, m);
    AppendWellTold(s.out, m, s.lifecycle.pendingAttachSeq);
  }

  lemma CloseKeeps(s: State, oracle: nat -> bool)
    requires Inv(s, 0)
    ensures Inv(Close(s, oracle), 0)
  {
    hide Responses, Answers, Attaches, Disconnects, AnsweredBefore, WellTold;
    Called(s.calls, DisconnectCall(oracle(|s.calls|)));
  }

  lemma StepKeeps(s: State, oracle: nat -> bool, input: Input)
    requires Inv(s, 0)
    ensures Inv(Step(s, oracle, input), 0)
  {
    hide Inv, Handle, Terminate, Close;
    match input
    case Asked(request) => HandleKeeps(s, oracle, request);
    case TargetChanged(execution) =>
      if s.lifecycle.phase == Attached {
        TargetEvent(s, "continued");
        TargetEvent(s, "stopped");
      }
    case Output(output) => if s.lifecycle.phase == Attached { TargetEvent(s, "output"); }
    case Terminated => TerminateKeeps(s);
    case Closed => CloseKeeps(s, oracle);
  }

  /** The theorem: every run, whatever the client asks and the backend does. */
  lemma {:induction false} RunKeeps(oracle: nat -> bool, inputs: seq<Input>)
    ensures Inv(Run(oracle, inputs), 0)
  {
    if inputs != [] {
      hide Inv, Step;
      RunKeeps(oracle, inputs[..|inputs| - 1]);
      StepKeeps(Run(oracle, inputs[..|inputs| - 1]), oracle, inputs[|inputs| - 1]);
    }
  }

  // ---------- What one request is answered with ----------

  /** Everything that handling a request adds to what was sent: one response to it; for an
      accepted attach the initialized event instead; and for an accepted configurationDone its
      response and, behind it, the one to the attach. */
  ghost predicate Turn(s: State, request: Request, t: State) {
    var n := |s.out|;
    && n < |t.out| && t.out[..n] == s.out
    && match |t.out| - n
       case 1 =>
         var m := t.out[n];
         if m.Response? then m.requestSeq == request.seq_ && m.command == CommandOf(request.command)
         else
           && m.event == "initialized" && CommandOf(request.command).Attach?
           && s.lifecycle.phase == AwaitAttach && t.lifecycle == Lifecycle(Configuring, request.seq_)
       case 2 =>
         && CommandOf(request.command).ConfigurationDone? && s.lifecycle.phase == Configuring
         && t.lifecycle.phase == Attached
         && IsConfigured(t.out[n]) && t.out[n].requestSeq == request.seq_
         && IsAttachAnswer(t.out[n + 1]) && t.out[n + 1].requestSeq == s.lifecycle.pendingAttachSeq
       case _ => false
  }

  predicate Initializes(s: State, request: Request) {
    var a := request.arguments;
    && s.lifecycle.phase == AwaitInitialize && a.decodable && a.adapterID != ""
    && (a.pathFormat == "path" || a.pathFormat == "uri")
  }

  lemma InitializeIs(s: State, request: Request)
    ensures OnInitialize(s, request)
         == if Initializes(s, request)
            then
              var t := s.(lifecycle := s.lifecycle.(phase := AwaitAttach), initialized := Some(request.arguments));
              Respond(t, request.seq_, Initialize, true)
            else Fail(s, request)
  {
    hide ApplyEffects;
    OneEffect(s.(lifecycle := s.lifecycle.(phase := AwaitAttach), initialized := Some(request.arguments)),
              InitializeResponse(request.seq_));
  }

  /** In particular an attach the backend accepted is never undone on the spot. */
  lemma AttachIs(s: State, oracle: nat -> bool, request: Request)
    ensures OnAttach(s, oracle, request)
         == if !request.arguments.decodable || s.lifecycle.phase != AwaitAttach then Fail(s, request)
            else if !oracle(|s.calls|) then Fail(Execute(s, oracle, ToAttach), request)
            else
              var configuring := Lifecycle(Configuring, request.seq_);
              Emit(Execute(s, oracle, ToAttach).(backendAttached := true, lifecycle := configuring), "initialized")
  {
    hide ApplyEffects;
    OneEffect(Execute(s, oracle, ToAttach).(backendAttached := true, lifecycle := Lifecycle(Configuring, request.seq_)),
              Initialized);
  }

  lemma ConfigurationDoneIs(s: State, oracle: nat -> bool, request: Request)
    ensures OnConfigurationDone(s, oracle, request)
         == if !request.arguments.empty || s.lifecycle.phase != Configuring then Fail(s, request)
            else if !oracle(|s.calls|) then Fail(Execute(s, oracle, ToConfigurationDone), request)
            else Respond(Respond(Execute(s, oracle, ToConfigurationDone).(lifecycle := s.lifecycle.(phase := Attached)),
                                 request.seq_, ConfigurationDone, true),
                         s.lifecycle.pendingAttachSeq, Attach, true)
  {
    hide ApplyEffects;
    TwoEffects(Execute(s, oracle, ToConfigurationDone).(lifecycle := s.lifecycle.(phase := Attached)),
               ConfigurationDoneResponse(request.seq_), AttachResponse(s.lifecycle.pendingAttachSeq));
  }

  /** A disconnect fails at its arguments, because the session is over, or because the backend does
      not let go; otherwise it ends the session. */
  lemma DisconnectIs(s: State, oracle: nat -> bool, request: Request)
    ensures var a := request.arguments;
            var malformed := !a.decodable || a.terminateDebuggee == Some(true) || a.suspendDebuggee == Some(true);
            var t := if s.backendAttached then Execute(s, oracle, ToDisconnect) else s;
            OnDisconnect(s, oracle, request)
            == if malformed || s.lifecycle.phase == Disconnected then Fail(s, request)
            else if s.backendAttached && !oracle(|s.calls|) then Fail(t, request)
            else
              var u := t.(backendAttached := false, lifecycle := s.lifecycle.(phase := Disconnected));
              Respond(u, request.seq_, Disconnect, true)
  {
    hide ApplyEffects;
    var t := if s.backendAttached then Execute(s, oracle, ToDisconnect) else s;
    OneEffect(t.(backendAttached := false, lifecycle := s.lifecycle.(phase := Disconnected)),
              DisconnectResponse(request.seq_));
  }

  lemma HandleTurns(s: State, oracle: nat -> bool, request: Request)
    ensures Turn(s, request, Handle(s, oracle, request))
  {
    var t := s.(handled := s.handled + [request]);
    InitializeIs(t, request);
    AttachIs(t, oracle, request);
    ConfigurationDoneIs(t, oracle, request);
    DisconnectIs(t, oracle, request);
    hide OnInitialize, OnAttach, OnConfigurationDone, OnDisconnect;
    if request.isRequest {
      match CommandOf(request.command)
      case Initialize =>
      case Attach =>
      case ConfigurationDone =>
      case Disconnect =>
      case Breakpoints(_) =>
      case Inspection(_) =>
      case Unsupported(_) =>
    }
  }

  /** A command that inspects or steers the target succeeds, or reaches the backend at all, only
      while attached; one that sets breakpoints also while configuring. */
  lemma ServedWhenAllowed(s: State, oracle: nat -> bool, request: Request)
    requires CommandOf(request.command).Inspection? || CommandOf(request.command).Breakpoints?
    ensures var t, command := Handle(s, oracle, request), CommandOf(request.command);
            && t.lifecycle == s.lifecycle && t.backendAttached == s.backendAttached && |t.out| == |s.out| + 1
            && (t.calls != s.calls || t.out[|s.out|] == Response(s.nextSeq, request.seq_, command, true)
                ==> s.lifecycle.phase == Attached || (s.lifecycle.phase == Configuring && command.Breakpoints?))
  {
    hide CommandOf;
  }

  /** Phases only move forward. */
  lemma StepForward(s: State, oracle: nat -> bool, input: Input)
    ensures Rank(s.lifecycle.phase) <= Rank(Step(s, oracle, input).lifecycle.phase)
  {
    if input.Asked? {
      var t := s.(handled := s.handled + [input.request]);
      InitializeIs(t, input.request);
      AttachIs(t, oracle, input.request);
      ConfigurationDoneIs(t, oracle, input.request);
      DisconnectIs(t, oracle, input.request);
      hide OnInitialize, OnAttach, OnConfigurationDone, OnDisconnect, CommandOf;
    }
  }

  lemma {:induction false} RunForward(oracle: nat -> bool, inputs: seq<Input>, k: nat)
    requires k <= |inputs|
    ensures Rank(Run(oracle, inputs[..k]).lifecycle.phase) <= Rank(Run(oracle, inputs).lifecycle.phase)
  {
    if k == |inputs| {
      assert inputs[..k] == inputs;
    } else {
      hide Step, Rank;
      var front := inputs[..|inputs| - 1];
      RunForward(oracle, front, k);
      assert front[..k] == inputs[..k];
      StepForward(Run(oracle, front), oracle, inputs[|inputs| - 1]);
    }
  }
}
