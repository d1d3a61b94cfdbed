/** The session object (internal/dap/session.go): its fields change with every request and
    notice, and it returns what to send. */
module DapFrontend {

  import opened Prelude
  import opened DapLifecycle
  import opened DapSessionRuns
  import DapSession

  type Request = DapSession.Request
  type Message = DapSession.Message
  type Call = DapSession.Call

  class Session {
    /** Whether the backend's i-th call succeeds. */
    const oracle: nat -> bool
    var lifecycle: Lifecycle
    var nextSeq: int
    var backendAttached: bool
    var initialized: Option<DapSession.Arguments>
    var executed: nat
    ghost var out: seq<Message>
    ghost var calls: seq<Call>
    ghost var handled: seq<Request>

    ghost function Model(): DapSession.State
      reads this
    {
      DapSession.State(lifecycle, nextSeq, backendAttached, initialized, out, calls, handled)
    }

    ghost predicate Valid()
      reads this
    {
      executed == |calls| && Inv(Model(), 0)
    }

    constructor (oracle: nat -> bool)
      ensures Valid() && Model() == DapSession.NEW_STATE && this.oracle == oracle
    {
      this.oracle := oracle;
      lifecycle, nextSeq, backendAttached, initialized, executed := NEW_LIFECYCLE, 1, false, None, 0;
      out, calls, handled := [], [], [];
      new;
      RunKeeps(oracle, []);
    }

    method Sequence() returns (s: int)
      modifies this`nextSeq
      ensures s == old(nextSeq) && nextSeq == s + 1
    {
      s := nextSeq;
      nextSeq := nextSeq + 1;
    }

    method Execute(kind: DapSession.CallKind) returns (ok: bool)
      requires executed == |calls|
      modifies this`executed, this`calls
      ensures executed == |calls| && ok == oracle(old(executed))
      ensures Model() == DapSession.Execute(old(Model()), oracle, kind)
    {
      ok := oracle(executed);
      executed := executed + 1;
      calls := calls + [DapSession.CallOf(kind, ok)];
    }

    method Respond(requestSeq: int, command: DapSession.Command, success: bool) returns (m: Message)
      modifies this`nextSeq, this`out
      ensures Model() == DapSession.Respond(old(Model()), requestSeq, command, success) && out == old(out) + [m]
    {
      var s := Sequence();
      m := DapSession.Response(s, requestSeq, command, success);
      out := out + [m];
    }

    method Emit(event: string) returns (m: Message)
      modifies this`nextSeq, this`out
      ensures Model() == DapSession.Emit(old(Model()), event) && out == old(out) + [m]
    {
      var s := Sequence();
      m := DapSession.Event(s, event);
      out := out + [m];
    }

    method Fail(request: Request) returns (messages: seq<Message>)
      modifies this`nextSeq, this`out
      ensures Model() == DapSession.Fail(old(Model()), request) && out == old(out) + messages
    {
      var m := Respond(request.seq_, DapSession.CommandOf(request.command), false);
      return [m];
    }

    method MessagesForEffects(effects: seq<LifecycleEffect>) returns (messages: seq<Message>)
      modifies this`nextSeq, this`out
      ensures Model() == DapSession.ApplyEffects(old(Model()), effects) && out == old(out) + messages
    {
      messages := [];
      for i := 0 to |effects|
        invariant Model() == DapSession.ApplyEffects(old(Model()), effects[..i]) && out == old(out) + messages
      {
        assert effects[..i + 1][..i] == effects[..i];
        match effects[i] {
          case InitializeResponse(q) => var m := Respond(q, DapSession.Initialize, true); messages := messages + [m];
          case Initialized => var m := Emit("initialized"); messages := messages + [m];
          case ConfigurationDoneResponse(q) =>
            var m := Respond(q, DapSession.ConfigurationDone, true);
            messages := messages + [m];
          case AttachResponse(q) => var m := Respond(q, DapSession.Attach, true); messages := messages + [m];
          case PublishTargetState =>
          case DisconnectResponse(q) => var m := Respond(q, DapSession.Disconnect, true); messages := messages + [m];
        }
      }
      assert effects[..|effects|] == effects;
    }

    method OnInitialize(request: Request) returns (messages: seq<Message>)
      modifies this`nextSeq, this`out, this`lifecycle, this`initialized
      ensures Model() == DapSession.OnInitialize(old(Model()), request) && out == old(out) + messages
    {
      hide DapSession.ApplyEffects;
      var a := request.arguments;
      if !a.decodable || a.adapterID == "" || (a.pathFormat != "path" && a.pathFormat != "uri") {
        messages := Fail(request);
        return;
      }
      var r := ReduceLifecycle(lifecycle, InitializeRequested(request.seq_));
      if r.Err? {
        messages := Fail(request);
        return;
      }
      lifecycle := r.value.0;
      initialized := Some(a);
      messages := MessagesForEffects(r.value.1);
    }

    method OnAttach(request: Request) returns (messages: seq<Message>)
      requires executed == |calls|
      modifies this`nextSeq, this`out, this`lifecycle, this`backendAttached, this`executed, this`calls
      ensures executed == |calls| && Model() == DapSession.OnAttach(old(Model()), oracle, request)
      ensures out == old(out) + messages
    {
      hide DapSession.ApplyEffects;
      if !request.arguments.decodable || lifecycle.phase != AwaitAttach {
        messages := Fail(request);
        return;
      }
      var ok := Execute(DapSession.ToAttach);
      if !ok {
        messages := Fail(request);
        return;
      }
      backendAttached := true;
      // The phase was checked above, so the lifecycle takes the attach: nothing to undo.
      var r := ReduceLifecycle(lifecycle, AttachRequested(request.seq_));
      lifecycle := r.value.0;
      messages := MessagesForEffects(r.value.1);
    }

    method OnConfigurationDone(request: Request) returns (messages: seq<Message>)
      requires executed == |calls|
      modifies this`nextSeq, this`out, this`lifecycle, this`executed, this`calls
      ensures executed == |calls| && Model() == DapSession.OnConfigurationDone(old(Model()), oracle, request)
      ensures out == old(out) + messages
    {
      hide DapSession.ApplyEffects;
      if !request.arguments.empty || lifecycle.phase != Configuring {
        messages := Fail(request);
        return;
      }
      var ok := Execute(DapSession.ToConfigurationDone);
      if !ok {
        messages := Fail(request);
        return;
      }
      var r := ReduceLifecycle(lifecycle, ConfigurationCompleted(request.seq_));
      lifecycle := r.value.0;
      messages := MessagesForEffects(r.value.1);
    }

    method OnDisconnect(request: Request) returns (messages: seq<Message>)
      requires executed == |calls|
      modifies this`nextSeq, this`out, this`lifecycle, this`backendAttached, this`executed, this`calls
      ensures executed == |calls| && Model() == DapSession.OnDisconnect(old(Model()), oracle, request)
      ensures out == old(out) + messages
    {
      hide DapSession.ApplyEffects;
      var a := request.arguments;
      if !a.decodable || a.terminateDebuggee == Some(true) || a.suspendDebuggee == Some(true)
         || lifecycle.phase == Disconnected {
        messages := Fail(request);
        return;
      }
      if backendAttached {
        var ok := Execute(DapSession.ToDisconnect);
        if !ok {
          messages := Fail(request);
          return;
        }
        backendAttached := false;
      }
      var r := ReduceLifecycle(lifecycle, DisconnectRequested(request.seq_));
      lifecycle := r.value.0;
      messages := MessagesForEffects(r.value.1);
    }

    method OnOther(request: Request, allowed: bool) returns (messages: seq<Message>)
      requires executed == |calls|
      modifies this`nextSeq, this`out, this`executed, this`calls
      ensures executed == |calls| && Model() == DapSession.OnOther(old(Model()), oracle, request, allowed)
      ensures out == old(out) + messages
    {
      if !allowed || !request.arguments.acceptable {
        messages := Fail(request);
        return;
      }
      var ok := true;
      if request.reachesBackend {
        ok := Execute(DapSession.ToOther);
        ok := ok && request.resultValid;
      }
      var m := Respond(request.seq_, DapSession.CommandOf(request.command), ok);
      return [m];
    }

    method Handle(request: Request) returns (messages: seq<Message>)
      requires Valid()
      modifies this
      ensures Valid() && Model() == DapSession.Handle(old(Model()), oracle, request) && out == old(out) + messages
    {
      hide Inv, DapSession.OnInitialize, DapSession.OnAttach, DapSession.OnConfigurationDone, DapSession.OnDisconnect,
        DapSession.OnOther, DapSession.CommandOf, DapSession.Fail;
      ghost var before := Model();
      handled := handled + [request];
      if !request.isRequest {
        messages := Fail(request);
      } else {
        match DapSession.CommandOf(request.command) {
          case Initialize => messages := OnInitialize(request);
          case Attach => messages := OnAttach(request);
          case ConfigurationDone => messages := OnConfigurationDone(request);
          case Disconnect => messages := OnDisconnect(request);
          case Breakpoints(_) =>
            messages := OnOther(request, lifecycle.phase == Configuring || lifecycle.phase == Attached);
          case Inspection(_) => messages := OnOther(request, lifecycle.phase == Attached);
          case Unsupported(_) => messages := Fail(request);
        }
      }
      assert Model() == DapSession.Handle(before, oracle, request);
      HandleKeeps(before, oracle, request);
    }

    method PublishTargetState(execution: DapSession.Execution) returns (messages: seq<Message>)
      requires Valid()
      modifies this`nextSeq, this`out, this`lifecycle
      ensures Valid() && Model() == DapSession.Publish(old(Model()), execution) && out == old(out) + messages
    {
      hide Inv;
      ghost var before := Model();
      StepKeeps(before, oracle, DapSession.TargetChanged(execution));
      var r := ReduceLifecycle(lifecycle, TargetMoved);
      if r.Err? { return []; }
      lifecycle := r.value.0;
      if r.value.1 == [] { return []; }
      match execution {
        case Running => var m := Emit("continued"); return [m];
        case Stopped => var m := Emit("stopped"); return [m];
        case Unknown => return [];
      }
    }

    method PublishOutput(output: string) returns (messages: seq<Message>)
      requires Valid()
      modifies this`nextSeq, this`out
      ensures Valid() && Model() == DapSession.PublishOutput(old(Model()), output) && out == old(out) + messages
    {
      hide Inv;
      StepKeeps(Model(), oracle, DapSession.Output(output));
      if lifecycle.phase != Attached || output == "" { return []; }
      var m := Emit("output");
      return [m];
    }

    method Terminate() returns (messages: seq<Message>)
      requires Valid()
      modifies this`nextSeq, this`out, this`lifecycle
      ensures Valid() && Model() == DapSession.Terminate(old(Model())) && out == old(out) + messages
    {
      hide Inv;
      StepKeeps(Model(), oracle, DapSession.Terminated);
      if lifecycle.phase == AwaitInitialize || lifecycle.phase == Disconnected { return []; }
      lifecycle := lifecycle.(phase := Disconnected);
      var m := Emit("terminated");
      return [m];
    }

    method Close() returns (ok: bool)
      requires Valid()
      modifies this`backendAttached, this`lifecycle, this`executed, this`calls
      ensures Valid() && Model() == DapSession.Close(old(Model()), oracle)
      ensures ok ==> !backendAttached && DapSessionRuns.Attaches(calls) == DapSessionRuns.Disconnects(calls)
    {
      hide DapSessionRuns.Attaches, DapSessionRuns.Disconnects, Told, Replied, Numbered;
      StepKeeps(Model(), oracle, DapSession.Closed);
      if !backendAttached { return true; }
      ok := Execute(DapSession.ToDisconnect);
      if ok {
        backendAttached := false;
        lifecycle := lifecycle.(phase := Disconnected);
      }
    }
  }
}
