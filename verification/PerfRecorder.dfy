/** The request and event correlator of internal/perf/recorder.go: what it does with each
    message, and what every sequence of messages keeps. Times are nanoseconds. */
module PerfRecorder {

  import opened Prelude

  const MAX_PENDING := 256

  datatype Message =
    | RequestMessage(seq_: int, command: string)
    | ResponseMessage(requestSeq: int, command: string, success: bool)
    | EventMessage(event: string)

  /** A decoded message as it was observed: direction and clamped time. */
  datatype Input = Input(client: bool, message: Message, time: int)

  /** A request awaiting its response. The digest tells apart commands with one label. */
  datatype Request = Request(name: string, digest: string, start: int, lane: int)

  datatype Event =
    | Span(name: string, start: int, duration: int, lane: int, requestSeq: int, success: bool)
    | Instant(name: string, time: int)

  datatype Counts = Counts(
    observedRequests: int,
    completedRequests: int,
    failedRequests: int,
    pendingLimitDrops: int,
    duplicateRequests: int,
    outOfOrderRequests: int,
    abandonedRequests: int,
    unmatchedResponses: int,
    commandMismatches: int,
    observedEvents: int,
    ignoredMessages: int,
    droppedEvents: int,
    clockRegressions: int)

  const NO_COUNTS := Counts(0, 0, 0, 0, 0, 0, 0, 0, 0, 0, 0, 0, 0)

  /** What the correlated responses of one command amount to. */
  datatype Summary = Summary(completed: int, failed: int, total: int, longest: int)

  datatype Core = Core(
    maxEvents: int,
    lastNS: int,
    lastRequestSeq: int,
    pending: map<int, Request>,
    lanes: seq<bool>,
    usedLanes: seq<bool>,
    events: seq<Event>,
    counts: Counts,
    summary: map<string, Summary>,
    // History, for stating properties: all messages, and the spans of all correlated responses,
    // retained or not.
    history: seq<Input>,
    answered: seq<Event>)

  const COMMANDS: set<string> := {
    "initialize", "attach", "launch", "configurationDone", "disconnect",
    "restart", "terminate", "cancel", "threads", "stackTrace", "scopes",
    "variables", "evaluate", "setVariable", "setExpression", "source",
    "loadedSources", "modules", "readMemory", "writeMemory", "disassemble",
    "setBreakpoints", "setFunctionBreakpoints", "setInstructionBreakpoints",
    "setDataBreakpoints", "dataBreakpointInfo", "breakpointLocations",
    "setExceptionBreakpoints", "exceptionInfo", "continue", "pause",
    "next", "stepIn", "stepOut", "stepBack", "reverseContinue", "restartFrame",
    "goto", "gotoTargets", "stepInTargets", "completions", "terminateThreads",
    "multi-dap/trace/open", "multi-dap/trace/poll", "multi-dap/trace/read",
    "multi-dap/trace/start", "multi-dap/trace/stop", "multi-dap/trace/close",
    "multi-dap/trace/status"}

  const EVENTS: set<string> := {
    "initialized", "stopped", "continued", "exited", "terminated", "thread",
    "output", "breakpoint", "module", "loadedSource", "process", "capabilities",
    "progressStart", "progressUpdate", "progressEnd", "invalidated", "memory"}

  function CommandName(command: string): string {
    if command in COMMANDS then command else "unknown"
  }

  function EventName(event: string): string {
    if event in EVENTS then event else "unknown"
  }

  // ---------- What each message does ----------

  /** Lanes and pending requests: a lane is busy exactly when a pending request holds it, no two
      hold the same one, and no pending sequence number is above the last one seen. */
  ghost predicate Held(pending: map<int, Request>, lanes: seq<bool>, last: int) {
    && |lanes| == MAX_PENDING && |pending| <= MAX_PENDING
    && (forall s :: s in pending ==> 0 <= pending[s].lane < MAX_PENDING && lanes[pending[s].lane] && s <= last)
    && (forall s, t :: s in pending && t in pending && pending[s].lane == pending[t].lane ==> s == t)
    && (forall l :: 0 <= l < MAX_PENDING && lanes[l] ==> Holder(pending, l))
  }

  ghost predicate Owned(c: Core) {
    |c.usedLanes| == MAX_PENDING && Held(c.pending, c.lanes, c.lastRequestSeq)
  }

  ghost predicate Holder(pending: map<int, Request>, lane: int) {
    exists s :: s in pending && pending[s].lane == lane
  }

  /** If requests hold all of the first k lanes, there are at least k of them. */
  lemma {:induction false} Pigeonhole(pending: map<int, Request>, k: nat)
    requires forall l :: 0 <= l < k ==> Holder(pending, l)
    ensures |pending| >= k
  {
    if k > 0 {
      assert Holder(pending, k - 1);
      var s :| s in pending && pending[s].lane == k - 1;
      var rest := pending - {s};
      forall l | 0 <= l < k - 1 ensures Holder(rest, l) {
        assert Holder(pending, l);
        var t :| t in pending && pending[t].lane == l;
        assert t in rest && rest[t].lane == l;
      }
      OneFewer(pending, s, rest);
      Pigeonhole(rest, k - 1);
    }
  }

  /** The search of recorder.go for a lane stays inside the array. */
  lemma LaneExists(c: Core)
    requires Owned(c) && |c.pending| != MAX_PENDING
    ensures FreeLane(c.lanes, 0) < MAX_PENDING
  {
    if FreeLane(c.lanes, 0) == MAX_PENDING {
      Pigeonhole(c.pending, MAX_PENDING);
    }
  }

  /** The first lane at or after i that is not busy, or the number of lanes. */
  function FreeLane(lanes: seq<bool>, i: nat): (lane: nat)
    requires i <= |lanes|
    ensures i <= lane <= |lanes| && (lane < |lanes| ==> !lanes[lane])
    ensures forall l :: i <= l < lane ==> lanes[l]
    decreases |lanes| - i
  {
    if i == |lanes| || !lanes[i] then i else FreeLane(lanes, i + 1)
  }

  function AppendEvent(c: Core, e: Event): Core {
    if |c.events| == c.maxEvents then c.(counts := c.counts.(droppedEvents := c.counts.droppedEvents + 1))
    else c.(events := c.events + [e])
  }

  function Release(c: Core, s: int): Core
    requires s in c.pending && 0 <= c.pending[s].lane < |c.lanes|
  {
    c.(pending := c.pending - {s}, lanes := c.lanes[c.pending[s].lane := false])
  }

  /** The clock of the recorder never runs backwards; a reading that does is counted. */
  function Stamp(c: Core, elapsed: int): Core {
    if elapsed < c.lastNS then c.(counts := c.counts.(clockRegressions := c.counts.clockRegressions + 1))
    else c.(lastNS := elapsed)
  }

  function Duplicated(n: Counts): Counts {
    n.(duplicateRequests := n.duplicateRequests + 1, abandonedRequests := n.abandonedRequests + 1)
  }

  function Mismatched(n: Counts): Counts {
    n.(commandMismatches := n.commandMismatches + 1, abandonedRequests := n.abandonedRequests + 1)
  }

  function Completed(n: Counts, success: bool): Counts {
    var failures := if success then 0 else 1;
    n.(completedRequests := n.completedRequests + 1, failedRequests := n.failedRequests + failures)
  }

  ghost function OnRequest(c: Core, s: int, command: string, digest: string): Core
    requires Owned(c)
  {
    var c := c.(counts := c.counts.(observedRequests := c.counts.observedRequests + 1));
    if s <= c.lastRequestSeq then
      if s in c.pending then
        var c := Release(c, s);
        c.(counts := Duplicated(c.counts))
      else c.(counts := c.counts.(outOfOrderRequests := c.counts.outOfOrderRequests + 1))
    else
      var c := c.(lastRequestSeq := s);
      if |c.pending| == MAX_PENDING then
        c.(counts := c.counts.(pendingLimitDrops := c.counts.pendingLimitDrops + 1))
      else
        LaneExists(c);
        Admit(c, s, Request(CommandName(command), digest, c.lastNS, FreeLane(c.lanes, 0)))
  }

  function Admit(c: Core, s: int, request: Request): Core
    requires 0 <= request.lane < |c.lanes|
  {
    c.(lanes := c.lanes[request.lane := true], pending := c.pending[s := request])
  }

  ghost function OnResponse(c: Core, s: int, digest: string, success: bool): Core
    requires Owned(c)
  {
    if s !in c.pending then
      c.(counts := c.counts.(unmatchedResponses := c.counts.unmatchedResponses + 1))
    else
      var request := c.pending[s];
      var c := Release(c, s);
      if digest != request.digest then c.(counts := Mismatched(c.counts))
      else Complete(c, request, SpanOf(request, s, success, c.lastNS))
  }

  /** The answered request is summarized and leaves a span, if there is room for one. */
  function Complete(c: Core, request: Request, span: Event): Core
    requires 0 <= request.lane < |c.usedLanes| && span.Span?
  {
    var counted := Counted(c, span);
    if |c.events| == c.maxEvents then AppendEvent(counted, span)
    else AppendEvent(counted, span).(usedLanes := c.usedLanes[request.lane := true])
  }

  function Counted(c: Core, span: Event): Core
    requires span.Span?
  {
    c.(counts := Completed(c.counts, span.success), summary := Tally(c.summary, span), answered := c.answered + [span])
  }

  function Tally(summary: map<string, Summary>, span: Event): map<string, Summary>
    requires span.Span?
  {
    var s := if span.name in summary then summary[span.name] else Summary(0, 0, 0, 0);
    var failures := if span.success then 0 else 1;
    var longest := Max(s.longest, span.duration);
    summary[span.name := Summary(s.completed + 1, s.failed + failures, s.total + span.duration, longest)]
  }

  function SpanOf(request: Request, s: int, success: bool, time: int): (e: Event)
    ensures e.Span?
  {
    Span(request.name, request.start, time - request.start, request.lane, s, success)
  }

  function OnEvent(c: Core, event: string): Core {
    var counts := c.counts.(observedEvents := c.counts.observedEvents + 1);
    AppendEvent(c.(counts := counts), Instant(EventName(event), c.lastNS))
  }

  function Ignore(c: Core): Core {
    c.(counts := c.counts.(ignoredMessages := c.counts.ignoredMessages + 1))
  }

  /** A decoded message is stamped as it arrives. */
  function Arrive(c: Core, client: bool, message: Message, elapsed: int): Core {
    var c := Stamp(c, elapsed);
    c.(history := c.history + [Input(client, message, c.lastNS)])
  }

  /** Which direction may say what; sha stands for SHA-256. */
  ghost function Dispatch(c: Core, sha: string -> string, client: bool, message: Message): Core
    requires Owned(c)
  {
    match message
    case RequestMessage(s, command) =>
      if client then OnRequest(c, s, command, sha(command)) else Ignore(c)
    case ResponseMessage(s, command, success) =>
      if client then Ignore(c) else OnResponse(c, s, sha(command), success)
    case EventMessage(event) =>
      if client then Ignore(c) else OnEvent(c, event)
  }

  /** A decoded message arriving when the clock reads elapsed. */
  ghost function Handle(c: Core, sha: string -> string, client: bool, message: Message, elapsed: int): Core
    requires Owned(c)
  {
    Dispatch(Arrive(c, client, message, elapsed), sha, client, message)
  }

  function Fresh(maxEvents: int): Core {
    Core(maxEvents, 0, 0, map[], seq(MAX_PENDING, _ => false), seq(MAX_PENDING, _ => false), [],
         NO_COUNTS, map[], [], [])
  }

  // ---------- Lanes ----------

  /** Where a request settles, completes, or is abandoned: its lane is free again. */
  lemma ReleaseKeepsHeld(pending: map<int, Request>, lanes: seq<bool>, last: int, s: int, rest: map<int, Request>)
    requires Held(pending, lanes, last) && s in pending && rest == pending - {s}
    ensures Held(rest, lanes[pending[s].lane := false], last) && |rest| == |pending| - 1
  {
    hide Holder;
    OneFewer(pending, s, rest);
    var free := lanes[pending[s].lane := false];
    forall l | 0 <= l < MAX_PENDING && free[l] ensures Holder(rest, l) {
      HolderStays(pending, rest, s, l);
    }
  }

  lemma OneFewer(pending: map<int, Request>, s: int, rest: map<int, Request>)
    requires s in pending && rest == pending - {s}
    ensures |rest| == |pending| - 1
  {
    assert rest.Keys == pending.Keys - {s};
    assert |rest| == |rest.Keys| && |pending| == |pending.Keys|;
  }

  lemma IsHolder(pending: map<int, Request>, s: int)
    requires s in pending
    ensures Holder(pending, pending[s].lane)
  {
  }

  lemma HolderStays(pending: map<int, Request>, rest: map<int, Request>, s: int, l: int)
    requires Holder(pending, l) && (s in pending ==> pending[s].lane != l)
    requires forall t :: t in pending && t != s ==> t in rest && rest[t] == pending[t]
    ensures Holder(rest, l)
  {
    var t :| t in pending && pending[t].lane == l;
    assert t in rest && rest[t].lane == l;
  }

  lemma AdmitKeepsHeld(pending: map<int, Request>, lanes: seq<bool>, last: int, s: int, request: Request)
    requires Held(pending, lanes, last) && |pending| < MAX_PENDING && last < s
    requires 0 <= request.lane < MAX_PENDING && !lanes[request.lane]
    ensures Held(pending[s := request], lanes[request.lane := true], s)
    ensures |pending[s := request]| == |pending| + 1
  {
    hide Holder;
    var more, busy := pending[s := request], lanes[request.lane := true];
    assert more - {s} == pending;
    OneFewer(more, s, pending);
    forall l | 0 <= l < MAX_PENDING && busy[l] ensures Holder(more, l) {
      if l == request.lane {
        IsHolder(more, s);
      } else {
        HolderStays(pending, more, s, l);
      }
    }
  }

  lemma RequestKeepsOwned(c: Core, s: int, command: string, digest: string)
    requires Owned(c)
    ensures Owned(OnRequest(c, s, command, digest))
  {
    if s <= c.lastRequestSeq {
      if s in c.pending {
        ReleaseKeepsHeld(c.pending, c.lanes, c.lastRequestSeq, s, c.pending - {s});
      }
    } else if |c.pending| != MAX_PENDING {
      LaneExists(c);
      var request := Request(CommandName(command), digest, c.lastNS, FreeLane(c.lanes, 0));
      AdmitKeepsHeld(c.pending, c.lanes, c.lastRequestSeq, s, request);
    }
    HeldLater(c.pending, c.lanes, c.lastRequestSeq, s);
    hide Held, CommandName, FreeLane;
  }

  lemma HeldLater(pending: map<int, Request>, lanes: seq<bool>, last: int, later: int)
    requires Held(pending, lanes, last)
    ensures last <= later ==> Held(pending, lanes, later)
  {
  }

  lemma ResponseKeepsOwned(c: Core, s: int, digest: string, success: bool)
    requires Owned(c)
    ensures Owned(OnResponse(c, s, digest, success))
  {
    if s in c.pending {
      ReleaseKeepsHeld(c.pending, c.lanes, c.lastRequestSeq, s, c.pending - {s});
    }
    hide Held, Tally, Completed, Mismatched;
  }

  // ---------- Time: the spans of a lane never overlap ----------

  function End(e: Event): int {
    if e.Span? then e.start + e.duration else e.time
  }

  predicate SameLane(e: Event, f: Event) {
    e.Span? && f.Span? && e.lane == f.lane
  }

  /** Entries are in order of their end; spans do not run backwards; on a lane, a span ends
      before the next one starts. */
  ghost predicate InOrder(es: seq<Event>, now: int) {
    && (forall i :: 0 <= i < |es| ==> End(es[i]) <= now)
    && (forall i :: 0 <= i < |es| && es[i].Span? ==> es[i].duration >= 0)
    && (forall i, j :: 0 <= i < j < |es| ==> End(es[i]) <= End(es[j]))
    && (forall i, j :: 0 <= i < j < |es| && SameLane(es[i], es[j]) ==> End(es[i]) <= es[j].start)
  }

  /** The spans on the lane of a pending request ended before it started. */
  ghost predicate Started(es: seq<Event>, request: Request, now: int) {
    && request.start <= now
    && forall i :: 0 <= i < |es| && es[i].Span? && es[i].lane == request.lane ==> End(es[i]) <= request.start
  }

  ghost predicate Timely(c: Core) {
    && InOrder(c.events, c.lastNS)
    && forall s :: s in c.pending ==> Started(c.events, c.pending[s], c.lastNS)
  }

  /** Some span is drawn on lane l. */
  ghost predicate HasSpan(es: seq<Event>, l: int) {
    exists i :: 0 <= i < |es| && es[i].Span? && es[i].lane == l
  }

  /** Exactly the lanes with a span are marked used. */
  ghost predicate Marked(c: Core) {
    forall l :: HasSpan(c.events, l) <==> 0 <= l < |c.usedLanes| && c.usedLanes[l]
  }

  lemma RequestKeepsTime(c: Core, s: int, command: string, digest: string)
    requires Owned(c) && Timely(c)
    ensures Timely(OnRequest(c, s, command, digest))
  {
    hide CommandName, Holder;
    if s > c.lastRequestSeq && |c.pending| != MAX_PENDING { LaneExists(c); }
  }

  lemma AppendInOrder(es: seq<Event>, e: Event, now: int)
    requires InOrder(es, now) && End(e) == now && (e.Span? ==> e.duration >= 0)
    requires forall i :: 0 <= i < |es| && SameLane(es[i], e) ==> End(es[i]) <= e.start
    ensures InOrder(es + [e], now)
  {
  }

  lemma StillStarted(es: seq<Event>, e: Event, request: Request, now: int)
    requires Started(es, request, now) && (e.Span? ==> e.lane != request.lane)
    ensures Started(es + [e], request, now)
  {
  }

  /** An entry that ends now, on a lane that no pending request holds. */
  lemma AppendKeepsTime(c: Core, e: Event, d: Core)
    requires Timely(c) && End(e) == c.lastNS && (e.Span? ==> e.duration >= 0)
    requires forall i :: 0 <= i < |c.events| && SameLane(c.events[i], e) ==> End(c.events[i]) <= e.start
    requires e.Span? ==> forall t :: t in c.pending ==> c.pending[t].lane != e.lane
    requires d.events == c.events || d.events == c.events + [e]
    requires d.pending == c.pending && d.lastNS == c.lastNS
    ensures Timely(d)
  {
    AppendInOrder(c.events, e, c.lastNS);
    forall t | t in c.pending ensures Started(c.events + [e], c.pending[t], c.lastNS) {
      StillStarted(c.events, e, c.pending[t], c.lastNS);
    }
    hide InOrder, Started;
  }

  lemma ResponseKeepsTime(c: Core, s: int, digest: string, success: bool)
    requires Owned(c) && Timely(c)
    ensures Timely(OnResponse(c, s, digest, success))
  {
    if s in c.pending {
      var d := Release(c, s);
      var span := SpanOf(c.pending[s], s, success, c.lastNS);
      assert Started(c.events, c.pending[s], c.lastNS);
      AppendKeepsTime(d, span, Complete(d, c.pending[s], span));
    }
    hide InOrder, Started, Held, Tally, Completed, Mismatched;
  }

  lemma EventKeepsTime(c: Core, event: string)
    requires Timely(c)
    ensures Timely(OnEvent(c, event))
  {
    AppendKeepsTime(c, Instant(EventName(event), c.lastNS), OnEvent(c, event));
  }

  lemma CompleteKeepsMarks(c: Core, request: Request, span: Event)
    requires Marked(c) && 0 <= request.lane < |c.usedLanes| && span.Span? && span.lane == request.lane
    ensures Marked(Complete(c, request, span))
  {
    var d := Complete(c, request, span);
    forall l ensures HasSpan(d.events, l) <==> 0 <= l < |d.usedLanes| && d.usedLanes[l] {
      SpanAdded(c.events, span, l);
      assert HasSpan(c.events, l) <==> 0 <= l < |c.usedLanes| && c.usedLanes[l];
    }
  }

  lemma SpanAdded(es: seq<Event>, e: Event, l: int)
    ensures HasSpan(es + [e], l) <==> HasSpan(es, l) || (e.Span? && e.lane == l)
  {
    var fs := es + [e];
    assert fs[|es|] == e;
    if HasSpan(es, l) {
      var i :| 0 <= i < |es| && es[i].Span? && es[i].lane == l;
      assert fs[i] == es[i];
    }
  }

  lemma EventKeepsMarks(c: Core, event: string)
    requires Marked(c)
    ensures Marked(OnEvent(c, event))
  {
    hide EventName;
    var d := OnEvent(c, event);
    forall l ensures HasSpan(d.events, l) <==> 0 <= l < |d.usedLanes| && d.usedLanes[l] {
      SpanAdded(c.events, Instant(EventName(event), c.lastNS), l);
      assert HasSpan(c.events, l) <==> 0 <= l < |c.usedLanes| && c.usedLanes[l];
    }
  }

  // ---------- Conservation ----------

  /** Every request observed is counted exactly once as completed, abandoned, refused or
      pending; and every completed request and event is an entry or counted as dropped. */
  predicate Balance(n: Counts, pending: int, entries: int, limit: int) {
    && n.observedRequests == n.completedRequests + n.abandonedRequests + pending
                             + n.pendingLimitDrops + n.duplicateRequests + n.outOfOrderRequests
    && n.abandonedRequests == n.duplicateRequests + n.commandMismatches
    && entries + n.droppedEvents == n.completedRequests + n.observedEvents
    && entries <= limit
    && 0 <= n.failedRequests <= n.completedRequests
    && Nonnegative(n)
  }

  ghost predicate Balanced(c: Core) {
    Balance(c.counts, |c.pending|, |c.events|, c.maxEvents)
  }

  predicate Nonnegative(n: Counts) {
    && n.observedRequests >= 0 && n.completedRequests >= 0 && n.pendingLimitDrops >= 0
    && n.duplicateRequests >= 0 && n.outOfOrderRequests >= 0 && n.abandonedRequests >= 0
    && n.unmatchedResponses >= 0 && n.commandMismatches >= 0 && n.observedEvents >= 0
    && n.ignoredMessages >= 0 && n.droppedEvents >= 0 && n.clockRegressions >= 0
  }

  /** What a request adds to the counts, and to the number of pending requests. */
  lemma RequestCounts(c: Core, s: int, command: string, digest: string)
    requires Owned(c)
    ensures var d := OnRequest(c, s, command, digest); d.events == c.events && d.maxEvents == c.maxEvents
    ensures var d, n := OnRequest(c, s, command, digest), c.counts.(observedRequests := c.counts.observedRequests + 1);
            || (|d.pending| == |c.pending| - 1 && d.counts == Duplicated(n))
            || (|d.pending| == |c.pending| && d.counts == n.(outOfOrderRequests := n.outOfOrderRequests + 1))
            || (|d.pending| == |c.pending| && d.counts == n.(pendingLimitDrops := n.pendingLimitDrops + 1))
            || (|d.pending| == |c.pending| + 1 && d.counts == n)
  {
    if s <= c.lastRequestSeq {
      if s in c.pending {
        OneFewer(c.pending, s, c.pending - {s});
      }
    } else if |c.pending| != MAX_PENDING {
      LaneExists(c);
      var request := Request(CommandName(command), digest, c.lastNS, FreeLane(c.lanes, 0));
      assert c.pending[s := request] - {s} == c.pending;
      OneFewer(c.pending[s := request], s, c.pending);
    }
    hide Held, CommandName, FreeLane;
  }

  lemma RequestKeepsBalance(c: Core, s: int, command: string, digest: string)
    requires Owned(c) && Balanced(c)
    ensures Balanced(OnRequest(c, s, command, digest))
  {
    hide OnRequest, Owned;
    RequestCounts(c, s, command, digest);
  }

  /** What a response adds to the counts, the entries and the number of pending requests. */
  lemma ResponseCounts(c: Core, s: int, digest: string, success: bool)
    requires Owned(c)
    ensures var d, n := OnResponse(c, s, digest, success), c.counts;
            || (|d.pending| == |c.pending| && d.events == c.events
                && d.counts == n.(unmatchedResponses := n.unmatchedResponses + 1))
            || (|d.pending| == |c.pending| - 1 && d.events == c.events && d.counts == Mismatched(n))
            || (|d.pending| == |c.pending| - 1 && |d.events| == |c.events| + 1 && |c.events| != c.maxEvents
                && d.counts == Completed(n, success))
            || (|d.pending| == |c.pending| - 1 && d.events == c.events
                && d.counts == Completed(n, success).(droppedEvents := n.droppedEvents + 1))
    ensures OnResponse(c, s, digest, success).maxEvents == c.maxEvents
  {
    if s in c.pending { OneFewer(c.pending, s, c.pending - {s}); }
    hide Held, Tally;
  }

  lemma ResponseKeepsBalance(c: Core, s: int, digest: string, success: bool)
    requires Owned(c) && Balanced(c)
    ensures Balanced(OnResponse(c, s, digest, success))
  {
    hide OnResponse, Owned;
    ResponseCounts(c, s, digest, success);
  }

  // ---------- The summary by command ----------

  predicate AllSpans(es: seq<Event>) {
    forall i :: 0 <= i < |es| ==> es[i].Span?
  }

  /** The spans of one command. */
  function Named(es: seq<Event>, name: string): (r: seq<Event>)
    requires AllSpans(es)
    ensures AllSpans(r)
  {
    if es == [] then []
    else Named(es[..|es| - 1], name) + if es[|es| - 1].name == name then [es[|es| - 1]] else []
  }

  function Failures(es: seq<Event>): int
    requires AllSpans(es)
  {
    if es == [] then 0 else Failures(es[..|es| - 1]) + if es[|es| - 1].success then 0 else 1
  }

  function TotalTime(es: seq<Event>): int
    requires AllSpans(es)
  {
    if es == [] then 0 else TotalTime(es[..|es| - 1]) + es[|es| - 1].duration
  }

  function LongestTime(es: seq<Event>): int
    requires AllSpans(es)
  {
    if es == [] then 0 else Max(LongestTime(es[..|es| - 1]), es[|es| - 1].duration)
  }

  function SummaryOf(es: seq<Event>): Summary
    requires AllSpans(es)
  {
    Summary(|es|, Failures(es), TotalTime(es), LongestTime(es))
  }

  /** A command has an entry exactly if it was answered, over all of its spans. */
  predicate SummaryAt(es: seq<Event>, summary: map<string, Summary>, name: string)
    requires AllSpans(es)
  {
    if Named(es, name) == [] then name !in summary
    else name in summary && summary[name] == SummaryOf(Named(es, name))
  }

  /** The summary covers all correlated responses, whether their spans were retained or not. */
  ghost predicate Tallied(c: Core) {
    && AllSpans(c.answered) && |c.answered| == c.counts.completedRequests
    && Failures(c.answered) == c.counts.failedRequests
    && forall name :: SummaryAt(c.answered, c.summary, name)
  }

  function OnlySpans(es: seq<Event>): (r: seq<Event>)
    ensures AllSpans(r)
  {
    if es == [] then []
    else OnlySpans(es[..|es| - 1]) + if es[|es| - 1].Span? then [es[|es| - 1]] else []
  }

  /** If no entry was dropped, the spans of the trace are all there were. */
  predicate Shown(c: Core) {
    c.counts.droppedEvents == 0 ==> OnlySpans(c.events) == c.answered
  }

  lemma SpansAppended(es: seq<Event>, e: Event)
    ensures OnlySpans(es + [e]) == OnlySpans(es) + if e.Span? then [e] else []
  {
    assert (es + [e])[..|es|] == es;
  }

  lemma AnsweredOnce(es: seq<Event>, e: Event, name: string)
    requires AllSpans(es) && e.Span?
    ensures AllSpans(es + [e]) && Failures(es + [e]) == Failures(es) + if e.success then 0 else 1
    ensures Named(es + [e], name) == if e.name == name then Named(es, name) + [e] else Named(es, name)
    ensures var s := SummaryOf(es);
            SummaryOf(es + [e]) == Summary(s.completed + 1, s.failed + if e.success then 0 else 1, s.total + e.duration,
                                           Max(s.longest, e.duration))
  {
    assert (es + [e])[..|es|] == es;
  }

  lemma TallyAt(es: seq<Event>, summary: map<string, Summary>, span: Event, name: string)
    requires AllSpans(es) && span.Span? && SummaryAt(es, summary, name)
    ensures AllSpans(es + [span]) && SummaryAt(es + [span], Tally(summary, span), name)
  {
    hide SummaryOf, Named, Failures, AllSpans;
    AnsweredOnce(es, span, name);
    if span.name == name {
      AnsweredOnce(Named(es, name), span, name);
      NoneTallied();
    }
  }

  lemma CountedKeepsTally(c: Core, span: Event)
    requires Tallied(c) && span.Span?
    ensures Tallied(Counted(c, span))
  {
    hide SummaryAt, Failures, Tally;
    AnsweredOnce(c.answered, span, "");
    forall name ensures SummaryAt(c.answered + [span], Tally(c.summary, span), name) {
      TallyAt(c.answered, c.summary, span, name);
    }
  }

  lemma NoneTallied()
    ensures SummaryOf([]) == Summary(0, 0, 0, 0)
  {
  }
}
