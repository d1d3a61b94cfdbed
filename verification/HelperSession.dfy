/** The TimeMachine helper session (bridge/timemachine_helper.py): a generation number that
    fences what it reports about a native trace. Native calls are numbered; an environment
    gives the outcome of each. */
module HelperSession {

  import opened Prelude

  const MAX_PACKET_BATCH := 4096
  const MAX_UINT64 := 0xFFFF_FFFF_FFFF_FFFF
  const MAX_NOTICES := 4096
  const PACKET_BYTES := 32

  /** The notices the native side may report; Foreign stands for any other value. */
  datatype Notice =
    | TraceStart
    | TraceStop
    | SelectPacket
    | DataClear
    | NewDataAvailable
    | PacketCountRegressed
    | DecoderReplacement
    | Foreign

  datatype TraceState = UnknownTrace | RunningTrace | StoppedTrace | StartRequested | StopRequested

  datatype Notification = Notification(
    events: seq<Notice>,
    dropped: int,
    ignored: int,
    failed: bool,
    invalidated: bool)

  const NOTHING := Notification([], 0, 0, false, false)

  /** The outcome of the n-th native call: whether it raises, and what it returns. */
  datatype Environment = Environment(
    ok: nat -> bool,
    info: nat -> seq<byte>,
    count: nat -> int,
    drained: nat -> Notification,
    batch: nat -> (seq<byte>, int))

  /** One completed refresh, as history. */
  datatype Refreshed = Refreshed(generation: int, info: seq<byte>, count: int, drained: Notification, lost: int)

  datatype Session = Session(
    limit: int,
    isOpen: bool,
    terminal: bool,
    faulted: bool,
    generation: int,
    traceState: TraceState,
    info: seq<byte>,
    infoSize: int,
    count: int,
    lastCount: Option<int>,
    pending: Notification,
    calls: nat,
    // History: the refreshes so far, and the generation last reported with notifications.
    log: seq<Refreshed>,
    reported: int)

  function Fresh(limit: int): Session {
    Session(limit, false, false, false, 1, UnknownTrace, [], 0, 0, None, NOTHING, 0, [], 1)
  }

  // ---------- Collecting notifications ----------

  predicate ValidNotification(n: Notification) {
    && |n.events| <= MAX_NOTICES && (forall i :: 0 <= i < |n.events| ==> n.events[i] != Foreign)
    && 0 <= n.dropped <= MAX_UINT64 && 0 <= n.ignored <= MAX_UINT64
  }

  /** The drained events, with what the helper itself noticed. */
  function AllEvents(n: Notification, regressed: bool, changed: bool): seq<Notice> {
    var events := if regressed && PacketCountRegressed !in n.events then n.events + [PacketCountRegressed]
                  else n.events;
    if changed && DecoderReplacement !in events then events + [DecoderReplacement] else events
  }

  predicate Invalidates(e: Notice) {
    e == TraceStart || e == DataClear || e == PacketCountRegressed || e == DecoderReplacement
  }

  datatype Collecting = Collecting(state: TraceState, kept: seq<Notice>, dropped: int, invalidate: bool)

  function Absorb(c: Collecting, limit: int, e: Notice): Collecting {
    var state := if e == TraceStart then RunningTrace else if e == TraceStop then StoppedTrace
                 else if Invalidates(e) then UnknownTrace else c.state;
    var invalidate := c.invalidate || Invalidates(e);
    if |c.kept| == limit then Collecting(UnknownTrace, c.kept, Min(MAX_UINT64, c.dropped + 1), true)
    else Collecting(state, c.kept + [e], c.dropped, invalidate)
  }

  function AbsorbAll(c: Collecting, limit: int, events: seq<Notice>): Collecting {
    if events == [] then c else Absorb(AbsorbAll(c, limit, events[..|events| - 1]), limit, events[|events| - 1])
  }

  function Advance(s: Session): Session {
    if s.generation == MAX_UINT64 then s.(faulted := true)
    else s.(generation := s.generation + 1, pending := s.pending.(invalidated := true))
  }

  predicate Trouble(n: Notification) {
    n.dropped != 0 || n.ignored != 0 || n.failed
  }

  /** What a valid notification does, except for the generation. */
  function Collected(s: Session, n: Notification, regressed: bool, changed: bool): (Session, bool) {
    var p := s.pending;
    var start := Collecting(s.traceState, p.events, p.dropped, n.invalidated || regressed || changed);
    var c := AbsorbAll(start, s.limit, AllEvents(n, regressed, changed));
    var dropped, ignored := Min(MAX_UINT64, c.dropped + n.dropped), Min(MAX_UINT64, p.ignored + n.ignored);
    var pending := Notification(c.kept, dropped, ignored, p.failed || n.failed, p.invalidated);
    var traceState := if Trouble(n) then UnknownTrace else c.state;
    (s.(traceState := traceState, pending := pending), c.invalidate || Trouble(n))
  }

  function Collect(s: Session, n: Notification, regressed: bool, changed: bool): Session {
    if !ValidNotification(n) then s.(faulted := true)
    else
      var (t, invalidate) := Collected(s, n, regressed, changed);
      if invalidate then Advance(t) else t
  }

  // ---------- Refreshing ----------

  function Call(s: Session, env: Environment): Session {
    s.(calls := s.calls + 1, faulted := s.faulted || !env.ok(s.calls))
  }

  /** How many events did not fit. */
  function Lost(s: Session, events: seq<Notice>): int {
    Max(0, |s.pending.events| + |events| - s.limit)
  }

  /** The session gives up after that many more native calls. */
  function Fault(s: Session, calls: nat): Session {
    s.(calls := s.calls + calls, faulted := true)
  }

  function Record(s: Session, n: Notification, lost: int): Session {
    s.(log := s.log + [Refreshed(s.generation, s.info, s.count, n, lost)])
  }

  /** The last part of a refresh: the notifications are drained and collected. */
  function DrainInto(s: Session, env: Environment, regressed: bool, changed: bool): Session {
    var n := env.drained(s.calls);
    if !env.ok(s.calls) then Fault(s, 1)
    else
      var t := Collect(s.(calls := s.calls + 1), n, regressed, changed);
      if t.faulted then t else Record(t, n, Lost(s, AllEvents(n, regressed, changed)))
  }

  /** The session after the native side was asked for its info and its packet count. */
  function Looked(s: Session, info: seq<byte>, count: int): Session {
    s.(calls := s.calls + 3, lastCount := Some(count), count := count, info := info)
  }

  /** A refresh; it has failed exactly if the session is faulted afterwards. */
  function Refresh(s: Session, env: Environment): Session {
    var c, info, count := s.calls, env.info(s.calls + 1), env.count(s.calls + 2);
    if !s.isOpen || s.faulted then s
    else if !env.ok(c) then Fault(s, 1)
    else if !env.ok(c + 1) || |info| != s.infoSize then Fault(s, 2)
    else if !env.ok(c + 2) || !(0 <= count < MAX_UINT64) then Fault(s, 3)
    else
      var regressed := s.lastCount.Some? && count < s.lastCount.value;
      DrainInto(Looked(s, info, count), env, regressed, s.info != [] && s.info != info)
  }

  // ---------- Requests ----------

  datatype Operation =
    | Open(argumentsValid: bool, version8: bool, factoryOk: bool)
    | Status
    | Close
    | Start(authorized: bool)
    | Stop(authorized: bool)
    | Read(start: int, count: int, generation: int)
    | Unsupported
    | BadArguments

  datatype Response =
    | StatusIs(info: seq<byte>, count: int, generation: int, traceState: TraceState, notifications: Notification)
    | BatchIs(generation: int, start: int, count: int, packets: seq<byte>)
    | AcceptedIs(generation: int, traceState: TraceState)
    | ClosedIs
    | InvalidArguments
    | AlreadyOpen
    | NotOpen
    | UnsupportedOperation
    | StaleGeneration
    | InvalidRange
    | Fatal

  predicate Carries(r: Response) {
    r.StatusIs? || r.BatchIs? || r.AcceptedIs?
  }

  function StatusOf(s: Session): (Session, Response) {
    (s.(pending := NOTHING, reported := s.generation),
     StatusIs(s.info, s.count, s.generation, s.traceState, s.pending))
  }

  function OnOpen(s: Session, env: Environment, op: Operation): (Session, Response)
    requires op.Open?
  {
    if !op.argumentsValid then (s, InvalidArguments)
    else if s.isOpen then (s, AlreadyOpen)
    else
      var s := s.(infoSize := if op.version8 then 64 else 60);
      if !op.factoryOk then (s.(faulted := true), Fatal)
      else
        var s := Call(s, env);
        if s.faulted then (s, Fatal)
        else
          var s := Call(s, env);
          if s.faulted then (s, Fatal)
          else
            var s := Refresh(s.(isOpen := true), env);
            if s.faulted then (s, Fatal) else StatusOf(s)
  }

  predicate ValidBatch(batch: (seq<byte>, int), count: int) {
    0 <= batch.1 <= count && |batch.0| == batch.1 * PACKET_BYTES
  }

  function OnRead(s: Session, env: Environment, op: Operation): (Session, Response)
    requires op.Read?
  {
    if op.generation != s.generation then (s, StaleGeneration)
    else if op.start > s.count || op.count > s.count - op.start then (s, InvalidRange)
    else
      var before := s.generation;
      var batch := env.batch(s.calls);
      var s := Call(s, env);
      if s.faulted || !ValidBatch(batch, op.count) then (s.(faulted := true), Fatal)
      else
        var s := Refresh(s, env);
        if s.faulted then (s, Fatal)
        else if s.generation != before then (s, StaleGeneration)
        else (s, BatchIs(s.generation, op.start, batch.1, batch.0))
  }

  function OnControl(s: Session, env: Environment, op: Operation): (Session, Response)
    requires op.Start? || op.Stop?
  {
    var s := Call(s.(traceState := if op.Start? then StartRequested else StopRequested), env);
    if s.faulted then (s, Fatal)
    else
      var s := Refresh(s, env);
      if s.faulted then (s, Fatal) else (s, AcceptedIs(s.generation, s.traceState))
  }

  /** The argument checks of every operation but open. */
  function Refusal(op: Operation): (r: Option<Response>)
    ensures r.Some? ==> !Carries(r.value)
  {
    match op
    case Start(authorized) => if authorized then None else Some(InvalidArguments)
    case Stop(authorized) => if authorized then None else Some(InvalidArguments)
    case Read(start, count, generation) =>
      if && 0 <= start <= MAX_UINT64 && 1 <= count <= MAX_PACKET_BATCH
         && 1 <= generation <= MAX_UINT64 && start <= MAX_UINT64 - count
      then None else Some(InvalidArguments)
    case Unsupported => Some(UnsupportedOperation)
    case BadArguments => Some(InvalidArguments)
    case _ => None
  }

  function Dispatch(s: Session, env: Environment, op: Operation): (Session, Response) {
    if s.faulted || s.terminal then (s, Fatal)
    else if op.Open? then OnOpen(s, env, op)
    else if Refusal(op).Some? then (s, Refusal(op).value)
    else if !s.isOpen then (s, NotOpen)
    else if op.Close? then
      var s := Call(s, env);
      if s.faulted then (s, Fatal) else (s.(isOpen := false, terminal := true), ClosedIs)
    else
      var s := Refresh(s, env);
      if s.faulted then (s, Fatal)
      else if op.Read? then OnRead(s, env, op)
      else if op.Start? || op.Stop? then OnControl(s, env, op)
      else StatusOf(s)
  }

  /** A request is served, or the owner pumps the native side between requests. */
  datatype Action = Request(op: Operation) | Pump

  function Step(s: Session, env: Environment, a: Action): (Session, Option<Response>) {
    match a
    case Request(op) => var (t, r) := Dispatch(s, env, op); (t, Some(r))
    case Pump => (Refresh(s, env), None)
  }

  function Run(limit: int, env: Environment, actions: seq<Action>): Session {
    if actions == [] then Fresh(limit)
    else Step(Run(limit, env, actions[..|actions| - 1]), env, actions[|actions| - 1]).0
  }

  /** The response to the k-th action. */
  function ResponseAt(limit: int, env: Environment, actions: seq<Action>, k: nat): Option<Response>
    requires k < |actions|
  {
    Step(Run(limit, env, actions[..k]), env, actions[k]).1
  }
}
