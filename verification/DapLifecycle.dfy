/** The attach ordering of a client session (internal/dap/lifecycle.go). */
module DapLifecycle {

  import opened Prelude

  datatype Phase = AwaitInitialize | AwaitAttach | Configuring | Attached | Disconnected

  function Rank(p: Phase): nat {
    match p
    case AwaitInitialize => 0
    case AwaitAttach => 1
    case Configuring => 2
    case Attached => 3
    case Disconnected => 4
  }

  datatype Lifecycle = Lifecycle(phase: Phase, pendingAttachSeq: int)

  datatype LifecycleEvent =
    | InitializeRequested(requestSeq: int)
    | AttachRequested(requestSeq: int)
    | ConfigurationCompleted(requestSeq: int)
    | TargetMoved
    | DisconnectRequested(requestSeq: int)

  datatype LifecycleEffect =
    | InitializeResponse(requestSeq: int)
    | Initialized
    | ConfigurationDoneResponse(requestSeq: int)
    | AttachResponse(requestSeq: int)
    | PublishTargetState
    | DisconnectResponse(requestSeq: int)

  datatype LifecycleError = NotBeforeAttach | NeedsInitialize | NeedsConfiguration | NotAttached | AlreadyDisconnected

  const NEW_LIFECYCLE := Lifecycle(AwaitInitialize, 0)

  function ReduceLifecycle(state: Lifecycle, event: LifecycleEvent)
    : (r: Result<(Lifecycle, seq<LifecycleEffect>), LifecycleError>)
    ensures r.Ok? ==> Rank(state.phase) <= Rank(r.value.0.phase)
    ensures r.Ok? && !event.TargetMoved? ==> Rank(state.phase) < Rank(r.value.0.phase)
    ensures AttachResponse(state.pendingAttachSeq) in Effects(r) <==>
            state.phase.Configuring? && event.ConfigurationCompleted?
  {
    match event
    case InitializeRequested(s) =>
      if state.phase != AwaitInitialize then Err(NotBeforeAttach)
      else Ok((state.(phase := AwaitAttach), [InitializeResponse(s)]))
    case AttachRequested(s) =>
      if state.phase != AwaitAttach then Err(NeedsInitialize)
      else Ok((Lifecycle(Configuring, s), [Initialized]))
    case ConfigurationCompleted(s) =>
      if state.phase != Configuring then Err(NeedsConfiguration)
      else Ok((state.(phase := Attached), [ConfigurationDoneResponse(s), AttachResponse(state.pendingAttachSeq)]))
    case TargetMoved =>
      if state.phase == Configuring then Ok((state, []))
      else if state.phase != Attached then Err(NotAttached)
      else Ok((state, [PublishTargetState]))
    case DisconnectRequested(s) =>
      if state.phase == Disconnected then Err(AlreadyDisconnected)
      else Ok((state.(phase := Disconnected), [DisconnectResponse(s)]))
  }

  function Effects(r: Result<(Lifecycle, seq<LifecycleEffect>), LifecycleError>): seq<LifecycleEffect> {
    if r.Ok? then r.value.1 else []
  }
}
