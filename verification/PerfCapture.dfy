/** What a finished capture is worth: a capture that reports itself complete shows every request
    and event that was observed, each exactly once. */
module PerfCapture {

  import opened Prelude
  import opened PerfRecorder
  import opened PerfAccount

  // ---------- The expected trace, told from the messages alone ----------

  /** The last request numbered s, or -1. */
  function RequestIndex(h: seq<Input>, s: int): (i: int)
    ensures -1 <= i < |h|
    ensures i >= 0 ==> IsRequest(h[i], s)
    ensures forall j :: i < j < |h| ==> !IsRequest(h[j], s)
  {
    if h == [] then -1
    else if IsRequest(h[|h| - 1], s) then |h| - 1
    else RequestIndex(h[..|h| - 1], s)
  }

  /** The last response to request s, or -1. */
  function ResponseIndex(h: seq<Input>, s: int): (i: int)
    ensures -1 <= i < |h|
    ensures i >= 0 ==> IsResponse(h[i], s)
    ensures forall j :: i < j < |h| ==> !IsResponse(h[j], s)
  {
    if h == [] then -1
    else if IsResponse(h[|h| - 1], s) then |h| - 1
    else ResponseIndex(h[..|h| - 1], s)
  }

  /** What a message adds to the trace after the messages h: an event its moment, a response
      the time since its request. */
  function Emits(h: seq<Input>, x: Input): seq<Event> {
    if x.client then []
    else
      match x.message
      case EventMessage(event) => [Instant(EventName(event), x.time)]
      case ResponseMessage(s, _, success) =>
        var i := RequestIndex(h, s);
        if i < 0 then []
        else [Span(CommandName(h[i].message.command), h[i].time, x.time - h[i].time, -1, s, success)]
      case RequestMessage(_, _) => []
  }

  function Expected(h: seq<Input>): seq<Event> {
    if h == [] then [] else Expected(h[..|h| - 1]) + Emits(h[..|h| - 1], h[|h| - 1])
  }

  /** Nothing was lost or out of place so far. */
  predicate Clean(n: Counts) {
    && n.droppedEvents == 0 && n.pendingLimitDrops == 0 && n.duplicateRequests == 0
    && n.outOfOrderRequests == 0 && n.unmatchedResponses == 0 && n.commandMismatches == 0
    && n.ignoredMessages == 0
  }

  /** Clients only ask, servers only answer and tell, and requests are numbered upwards. */
  ghost predicate Orderly(h: seq<Input>, last: int) {
    && (forall i :: 0 <= i < |h| ==> h[i].client == h[i].message.RequestMessage?)
    && (forall i :: 0 <= i < |h| && h[i].client ==> h[i].message.seq_ <= last)
    && (forall i, j :: 0 <= i < j < |h| && h[i].client && h[j].client ==> h[i].message.seq_ < h[j].message.seq_)
  }

  /** Every response is the first to a request before it, and names the same command. */
  ghost predicate Paired(h: seq<Input>, sha: string -> string) {
    forall k :: 0 <= k < |h| && !h[k].client && h[k].message.ResponseMessage? ==> Answers(h, k, sha)
  }

  ghost predicate Answers(h: seq<Input>, k: nat, sha: string -> string)
    requires k < |h| && h[k].message.ResponseMessage?
  {
    var s := h[k].message.requestSeq;
    var i := RequestIndex(h[..k], s);
    && i >= 0 && ResponseIndex(h[..k], s) < 0
    && sha(h[i].message.command) == sha(h[k].message.command)
  }

  /** The pending requests are exactly the unanswered ones. */
  ghost predicate Unanswered(h: seq<Input>, pending: map<int, Request>, sha: string -> string) {
    && (forall s :: s in pending ==> Awaits(h, s, pending[s], sha))
    && (forall i :: 0 <= i < |h| && h[i].client && h[i].message.RequestMessage?
                    ==> h[i].message.seq_ in pending || ResponseIndex(h, h[i].message.seq_) > i)
  }

  ghost predicate Awaits(h: seq<Input>, s: int, request: Request, sha: string -> string) {
    var i := RequestIndex(h, s);
    && i >= 0 && ResponseIndex(h, s) < 0
    && request.name == CommandName(h[i].message.command) && request.digest == sha(h[i].message.command)
    && request.start == h[i].time
  }

  ghost predicate Faithful(c: Core, sha: string -> string) {
    && Orderly(c.history, c.lastRequestSeq)
    && Paired(c.history, sha)
    && Unanswered(c.history, c.pending, sha)
    && AllUnlaned(c.events) == Expected(c.history)
  }

  // ---------- Preservation ----------

  lemma Appended(h: seq<Input>, x: Input, s: int)
    ensures RequestIndex(h + [x], s) == if IsRequest(x, s) then |h| else RequestIndex(h, s)
    ensures ResponseIndex(h + [x], s) == if IsResponse(x, s) then |h| else ResponseIndex(h, s)
    ensures Expected(h + [x]) == Expected(h) + Emits(h, x)
  {
    assert (h + [x])[..|h|] == h;
  }

  lemma PairedAppended(h: seq<Input>, x: Input, sha: string -> string)
    requires Paired(h, sha)
    requires !x.client && x.message.ResponseMessage? ==> Answers(h + [x], |h|, sha)
    ensures Paired(h + [x], sha)
  {
    hide RequestIndex, ResponseIndex;
    var g := h + [x];
    forall k | 0 <= k < |g| && !g[k].client && g[k].message.ResponseMessage? ensures Answers(g, k, sha) {
      if k < |h| { assert g[..k] == h[..k] && Answers(h, k, sha); }
    }
  }

  lemma OrderlyAppended(h: seq<Input>, x: Input, last: int, newLast: int)
    requires Orderly(h, last) && last <= newLast && x.client == x.message.RequestMessage?
    requires x.client ==> last < x.message.seq_ == newLast
    ensures Orderly(h + [x], newLast)
  {
  }

  /** A request numbered above all others joins the unanswered ones. */
  lemma AskedIsUnanswered(h: seq<Input>, x: Input, last: int, pending: map<int, Request>, request: Request,
                          sha: string -> string)
    requires Orderly(h, last) && Paired(h, sha) && Unanswered(h, pending, sha)
    requires x.client && x.message.RequestMessage? && last < x.message.seq_
    requires request.name == CommandName(x.message.command) && request.digest == sha(x.message.command)
    requires request.start == x.time
    ensures Unanswered(h + [x], pending[x.message.seq_ := request], sha)
  {
    hide RequestIndex, ResponseIndex, Expected, CommandName;
    var s := x.message.seq_;
    var g := h + [x];
    Appended(h, x, s);
    forall t | t in pending && t != s ensures Awaits(g, t, pending[t], sha) {
      Appended(h, x, t);
      assert Awaits(h, t, pending[t], sha);
    }
    forall i | 0 <= i < |h| && h[i].client && h[i].message.RequestMessage?
      ensures h[i].message.seq_ in pending || ResponseIndex(g, h[i].message.seq_) > i
    {
      Appended(h, x, h[i].message.seq_);
    }
  }

  /** A message that is no request leaves unanswered what it does not answer. */
  lemma AnsweredIsNot(h: seq<Input>, x: Input, pending: map<int, Request>, rest: map<int, Request>,
                      sha: string -> string)
    requires Unanswered(h, pending, sha) && !x.client
    requires rest == if x.message.ResponseMessage? then pending - {x.message.requestSeq} else pending
    ensures Unanswered(h + [x], rest, sha)
  {
    hide RequestIndex, ResponseIndex, Expected, CommandName;
    var g := h + [x];
    forall t | t in rest ensures Awaits(g, t, rest[t], sha) {
      Appended(h, x, t);
      assert Awaits(h, t, pending[t], sha);
    }
    forall i | 0 <= i < |g| && g[i].client && g[i].message.RequestMessage?
      ensures g[i].message.seq_ in rest || ResponseIndex(g, g[i].message.seq_) > i
    {
      Appended(h, x, g[i].message.seq_);
    }
  }

  lemma RequestKeepsFaith(c: Core, h: seq<Input>, x: Input, d: Core, sha: string -> string)
    requires Owned(c) && c.history == h + [x] && Nonnegative(c.counts)
    requires x.client && x.message.RequestMessage? && x.time == c.lastNS
    requires Faithful(c.(history := h), sha)
    requires d == OnRequest(c, x.message.seq_, x.message.command, sha(x.message.command)) && Clean(d.counts)
    ensures Faithful(d, sha)
  {
    hide Expected, CommandName, Held, AllUnlaned, Orderly, Unanswered, Paired;
    var s := x.message.seq_;
    assert s > c.lastRequestSeq && |c.pending| != MAX_PENDING;
    LaneExists(c);
    PairedAppended(h, x, sha);
    Appended(h, x, s);
    OrderlyAppended(h, x, c.lastRequestSeq, s);
    AskedIsUnanswered(h, x, c.lastRequestSeq, c.pending, d.pending[s], sha);
  }

  /** A response that is not lost settles a request that was waiting for it. */
  lemma CleanResponse(c: Core, s: int, digest: string, success: bool, d: Core)
    requires Owned(c) && Nonnegative(c.counts) && d == OnResponse(c, s, digest, success) && Clean(d.counts)
    ensures s in c.pending && digest == c.pending[s].digest
    ensures d.pending == c.pending - {s} && d.lastRequestSeq == c.lastRequestSeq && d.history == c.history
    ensures d.events == c.events + [SpanOf(c.pending[s], s, success, c.lastNS)]
  {
    hide Held, Tally;
  }

  lemma ResponseKeepsFaith(c: Core, h: seq<Input>, x: Input, d: Core, sha: string -> string)
    requires Owned(c) && c.history == h + [x] && Nonnegative(c.counts)
    requires !x.client && x.message.ResponseMessage? && x.time == c.lastNS
    requires Faithful(c.(history := h), sha)
    requires d == OnResponse(c, x.message.requestSeq, sha(x.message.command), x.message.success) && Clean(d.counts)
    ensures Faithful(d, sha)
  {
    hide Expected, CommandName, Owned, AllUnlaned, Orderly, Paired, Unanswered, Emits, Awaits, OnResponse, Answers;
    var s := x.message.requestSeq;
    CleanResponse(c, s, sha(x.message.command), x.message.success, d);
    AnswerTold(h, x, c.pending, sha);
    PairedAppended(h, x, sha);
    Appended(h, x, s);
    OrderlyAppended(h, x, c.lastRequestSeq, c.lastRequestSeq);
    AnsweredIsNot(h, x, c.pending, d.pending, sha);
    UnlanedAppended(c.events, SpanOf(c.pending[s], s, x.message.success, c.lastNS));
  }

  /** The response to a pending request answers it, and emits the span of the two. */
  lemma AnswerTold(h: seq<Input>, x: Input, pending: map<int, Request>, sha: string -> string)
    requires !x.client && x.message.ResponseMessage? && Unanswered(h, pending, sha)
    requires var s := x.message.requestSeq; s in pending && pending[s].digest == sha(x.message.command)
    ensures Answers(h + [x], |h|, sha)
    ensures var s := x.message.requestSeq;
            Emits(h, x) == [Unlaned(SpanOf(pending[s], s, x.message.success, x.time))]
  {
    hide RequestIndex, ResponseIndex, CommandName;
    var s := x.message.requestSeq;
    assert Awaits(h, s, pending[s], sha);
    assert (h + [x])[..|h|] == h;
  }

  lemma EventKeepsFaith(c: Core, h: seq<Input>, x: Input, d: Core, sha: string -> string)
    requires c.history == h + [x] && Nonnegative(c.counts)
    requires !x.client && x.message.EventMessage? && x.time == c.lastNS
    requires Faithful(c.(history := h), sha)
    requires d == OnEvent(c, x.message.event) && Clean(d.counts)
    ensures Faithful(d, sha)
  {
    hide Expected, EventName, AllUnlaned, Orderly, Unanswered, Paired;
    PairedAppended(h, x, sha);
    Appended(h, x, 0);
    OrderlyAppended(h, x, c.lastRequestSeq, c.lastRequestSeq);
    AnsweredIsNot(h, x, c.pending, d.pending, sha);
    UnlanedAppended(c.events, Instant(EventName(x.message.event), c.lastNS));
  }

  // ---------- Every reachable state ----------

  /** No request is told twice, and none that is told is still pending. */
  ghost predicate ToldOnce(c: Core) {
    && (forall i :: 0 <= i < |c.events| && c.events[i].Span? ==> Settled(c, c.events[i].requestSeq))
    && (forall i, j :: 0 <= i < j < |c.events| && c.events[i].Span? && c.events[j].Span?
                       ==> c.events[i].requestSeq != c.events[j].requestSeq)
  }

  /** A number the recorder is past and does not await. */
  predicate Settled(c: Core, s: int) {
    s <= c.lastRequestSeq && s !in c.pending
  }

  lemma SettledStays(c: Core, sha: string -> string, client: bool, message: Message, elapsed: int, s: int)
    requires Owned(c) && Settled(c, s)
    ensures var d := Handle(c, sha, client, message, elapsed);
            && Settled(d, s)
            && |c.events| <= |d.events| && d.events[..|c.events|] == c.events
            && (forall i :: |c.events| <= i < |d.events| && d.events[i].Span? ==> d.events[i].requestSeq != s)
            && (!client && message.ResponseMessage? && message.requestSeq == s
                ==> d.counts.unmatchedResponses == c.counts.unmatchedResponses + 1)
  {
    hide Owned, CommandName, EventName;
  }

  /** Lanes, times, marks, balance and summary. */
  ghost predicate Kept(c: Core) {
    Owned(c) && Timely(c) && Marked(c) && Balanced(c) && Tallied(c) && Shown(c)
  }

  ghost predicate Consistent(c: Core, sha: string -> string) {
    Kept(c) && ToldOnce(c) && Accounted(c, sha) && (Clean(c.counts) ==> Faithful(c, sha))
  }

  lemma HandleKeepsTold(c: Core, sha: string -> string, client: bool, message: Message, elapsed: int)
    requires Owned(c) && ToldOnce(c)
    ensures ToldOnce(Handle(c, sha, client, message, elapsed))
  {
    hide Handle, Owned;
    var d := Handle(c, sha, client, message, elapsed);
    LastIsSettled(c, sha, client, message, elapsed);
    forall i | 0 <= i < |c.events| && c.events[i].Span?
      ensures Settled(d, c.events[i].requestSeq)
      ensures |d.events| > |c.events| && d.events[|c.events|].Span? ==>
                d.events[|c.events|].requestSeq != c.events[i].requestSeq
    {
      SettledStays(c, sha, client, message, elapsed, c.events[i].requestSeq);
    }
    hide Settled;
    assert forall i :: 0 <= i < |c.events| ==> d.events[i] == d.events[..|c.events|][i];
  }

  lemma LastIsSettled(c: Core, sha: string -> string, client: bool, message: Message, elapsed: int)
    requires Owned(c)
    ensures var d := Handle(c, sha, client, message, elapsed);
            && |c.events| <= |d.events| <= |c.events| + 1 && d.events[..|c.events|] == c.events
            && (|d.events| > |c.events| && d.events[|c.events|].Span? ==> Settled(d, d.events[|c.events|].requestSeq))
  {
    hide CommandName, EventName, Holder;
  }

  /** States that differ only in clock, counts that balance, and history. */
  lemma SameBooks(c: Core, d: Core)
    requires Kept(c) && Balance(d.counts, |c.pending|, |c.events|, c.maxEvents)
    requires d.counts.completedRequests == c.counts.completedRequests
    requires d.counts.failedRequests == c.counts.failedRequests
    requires d.counts.droppedEvents == c.counts.droppedEvents
    requires d == c.(lastNS := d.lastNS, counts := d.counts, history := d.history) && c.lastNS <= d.lastNS
    ensures Kept(d)
  {
    assert InOrder(d.events, d.lastNS);
    forall s | s in d.pending ensures Started(d.events, d.pending[s], d.lastNS) {
      assert Started(c.events, c.pending[s], c.lastNS);
    }
    hide Held, InOrder, Started, HasSpan, SummaryAt, Failures;
  }

  lemma ArriveKeeps(c: Core, client: bool, message: Message, elapsed: int)
    requires Kept(c)
    ensures Kept(Arrive(c, client, message, elapsed))
  {
    assert Balanced(c);
    SameBooks(c, Arrive(c, client, message, elapsed));
    hide Kept;
  }

  /** What each message keeps. */
  lemma HandleKeeps(c: Core, sha: string -> string, client: bool, message: Message, elapsed: int)
    requires Consistent(c, sha)
    ensures Consistent(Handle(c, sha, client, message, elapsed), sha)
  {
    hide Kept, ToldOnce, Accounted, Faithful, Handle, Owned, Balanced;
    KeptIs(c);
    HandleKeepsBooks(c, sha, client, message, elapsed);
    HandleKeepsTold(c, sha, client, message, elapsed);
    HandleKeepsFaith(c, sha, client, message, elapsed);
    HandleAccounted(c, sha, client, message, elapsed);
  }

  lemma KeptIs(c: Core)
    requires Kept(c)
    ensures Owned(c) && Balanced(c)
  {
  }

  lemma HandleKeepsBooks(c: Core, sha: string -> string, client: bool, message: Message, elapsed: int)
    requires Kept(c) && Owned(c)
    ensures Kept(Handle(c, sha, client, message, elapsed))
  {
    hide Kept, Arrive, OnRequest, OnResponse, OnEvent, Ignore, Owned;
    var d := Arrive(c, client, message, elapsed);
    ArriveKeeps(c, client, message, elapsed);
    KeptIs(d);
    IgnoreKeeps(d);
    match message {
      case RequestMessage(s, command) => RequestKeeps(d, s, command, sha(command));
      case ResponseMessage(s, command, success) => ResponseKeeps(d, s, sha(command), success);
      case EventMessage(event) => EventKeeps(d, event);
    }
  }

  lemma RequestKeeps(c: Core, s: int, command: string, digest: string)
    requires Kept(c)
    ensures Kept(OnRequest(c, s, command, digest))
  {
    var d := OnRequest(c, s, command, digest);
    RequestKeepsOwned(c, s, command, digest);
    RequestKeepsTime(c, s, command, digest);
    RequestKeepsBalance(c, s, command, digest);
    RequestTellsNothing(c, s, command, digest);
    assert Marked(d) && Tallied(d) && Shown(d) by {
      hide Owned, Timely, Balanced, HasSpan, SummaryAt, OnRequest, OnlySpans;
    }
    hide Owned, Timely, Balanced, Marked, Tallied, Shown;
  }

  lemma RequestTellsNothing(c: Core, s: int, command: string, digest: string)
    requires Owned(c)
    ensures var d := OnRequest(c, s, command, digest);
            && d.events == c.events && d.usedLanes == c.usedLanes && d.summary == c.summary && d.answered == c.answered
            && d.counts.completedRequests == c.counts.completedRequests
            && d.counts.failedRequests == c.counts.failedRequests
            && d.counts.droppedEvents == c.counts.droppedEvents
  {
    hide Held, CommandName;
  }

  lemma ResponseKeeps(c: Core, s: int, digest: string, success: bool)
    requires Kept(c)
    ensures Kept(OnResponse(c, s, digest, success))
  {
    ResponseKeepsOwned(c, s, digest, success);
    ResponseKeepsTime(c, s, digest, success);
    ResponseKeepsBalance(c, s, digest, success);
    ResponseKeepsMarks(c, s, digest, success);
    ResponseKeepsTally(c, s, digest, success);
    ResponseShown(c, s, digest, success);
    hide Owned, Timely, Balanced, Marked, Tallied, Shown, OnResponse;
  }

  lemma ResponseKeepsMarks(c: Core, s: int, digest: string, success: bool)
    requires Owned(c) && Marked(c)
    ensures Marked(OnResponse(c, s, digest, success))
  {
    hide Complete, HasSpan, Mismatched, SpanOf;
    if s in c.pending {
      assert 0 <= c.pending[s].lane < MAX_PENDING;
      SpanLane(c.pending[s], s, success, c.lastNS);
      CompleteKeepsMarks(Release(c, s), c.pending[s], SpanOf(c.pending[s], s, success, c.lastNS));
    }
    hide Held;
  }

  lemma SpanLane(request: Request, s: int, success: bool, time: int)
    ensures SpanOf(request, s, success, time).lane == request.lane
  {
  }

  lemma ResponseKeepsTally(c: Core, s: int, digest: string, success: bool)
    requires Owned(c) && Tallied(c)
    ensures Tallied(OnResponse(c, s, digest, success))
  {
    hide SummaryAt, Failures, Tally;
    if s in c.pending {
      var d, span := Release(c, s), SpanOf(c.pending[s], s, success, c.lastNS);
      CountedKeepsTally(d, span);
      assert Tallied(Complete(d, c.pending[s], span));
      hide Complete;
    }
  }

  lemma ResponseShown(c: Core, s: int, digest: string, success: bool)
    requires Owned(c) && Balanced(c) && Shown(c)
    ensures Shown(OnResponse(c, s, digest, success))
  {
    hide Tally, OnlySpans;
    if s in c.pending {
      SpansAppended(c.events, SpanOf(c.pending[s], s, success, c.lastNS));
    }
    hide Held;
  }

  lemma EventKeeps(c: Core, event: string)
    requires Kept(c)
    ensures Kept(OnEvent(c, event))
  {
    EventKeepsTime(c, event);
    EventKeepsMarks(c, event);
    SpansAppended(c.events, Instant(EventName(event), c.lastNS));
    hide Timely, Marked, Held, SummaryAt, Failures, EventName, OnlySpans;
  }

  lemma IgnoreKeeps(c: Core)
    requires Kept(c)
    ensures Kept(Ignore(c))
  {
    assert Balanced(c);
    SameBooks(c, Ignore(c));
    hide Kept;
  }

  /** A loss is never forgotten, and only the right side may say what was said. */
  lemma CleanBefore(c: Core, sha: string -> string, client: bool, message: Message)
    requires Owned(c) && Nonnegative(c.counts) && Clean(Dispatch(c, sha, client, message).counts)
    ensures Clean(c.counts) && client == message.RequestMessage?
  {
    hide Held, Tally, CommandName, EventName;
  }

  lemma HandleKeepsFaith(c: Core, sha: string -> string, client: bool, message: Message, elapsed: int)
    requires Owned(c) && Balanced(c) && (Clean(c.counts) ==> Faithful(c, sha))
    ensures var d := Handle(c, sha, client, message, elapsed); Clean(d.counts) ==> Faithful(d, sha)
  {
    hide Faithful, Held, OnRequest, OnResponse, OnEvent;
    var d := Arrive(c, client, message, elapsed);
    var e := Dispatch(d, sha, client, message);
    if Clean(e.counts) {
      CleanBefore(d, sha, client, message);
      FaithfulAnyTime(c, d.(history := c.history), sha);
      var x := Input(client, message, d.lastNS);
      match message {
        case RequestMessage(_, _) => RequestKeepsFaith(d, c.history, x, e, sha);
        case ResponseMessage(_, _, _) => ResponseKeepsFaith(d, c.history, x, e, sha);
        case EventMessage(_) => EventKeepsFaith(d, c.history, x, e, sha);
      }
    }
  }

  lemma FaithfulAnyTime(c: Core, d: Core, sha: string -> string)
    requires Faithful(c, sha)
    requires d == c.(lastNS := d.lastNS, counts := d.counts)
    ensures Faithful(d, sha)
  {
  }

  // ---------- Runs ----------

  datatype Observation = Observation(client: bool, message: Message, elapsed: int)

  /** The recorder after the messages os, in whatever order the two directions produced them. */
  ghost function Play(c: Core, sha: string -> string, os: seq<Observation>): (d: Core)
    requires Consistent(c, sha)
    ensures Consistent(d, sha)
  {
    if os == [] then c
    else
      var before := Play(c, sha, os[..|os| - 1]);
      var o := os[|os| - 1];
      HandleKeeps(before, sha, o.client, o.message, o.elapsed);
      Handle(before, sha, o.client, o.message, o.elapsed)
  }

  lemma ConsistentIs(c: Core, sha: string -> string)
    requires Consistent(c, sha)
    ensures Owned(c)
  {
    hide Timely, Marked, Balanced, Tallied, Shown, ToldOnce, Accounted, Faithful, Held;
  }

  lemma FreshIsConsistent(maxEvents: nat, sha: string -> string)
    ensures Consistent(Fresh(maxEvents), sha)
  {
    FreshAccounted(maxEvents, sha);
    hide Accounted;
  }

  /** The latest clock reading so far. */
  function Peak(os: seq<Observation>): int {
    if os == [] then 0 else Max(Peak(os[..|os| - 1]), os[|os| - 1].elapsed)
  }

  /** How often the clock was read as running backwards. */
  function Backwards(os: seq<Observation>): int {
    if os == [] then 0
    else Backwards(os[..|os| - 1]) + if os[|os| - 1].elapsed < Peak(os[..|os| - 1]) then 1 else 0
  }

  lemma HandleTime(c: Core, sha: string -> string, client: bool, message: Message, elapsed: int)
    requires Owned(c)
    ensures var d, time := Handle(c, sha, client, message, elapsed), Max(c.lastNS, elapsed);
            && d.history == c.history + [Input(client, message, time)] && d.lastNS == time
            && d.counts.clockRegressions == c.counts.clockRegressions + if elapsed < c.lastNS then 1 else 0
  {
    hide Held, Tally, CommandName, EventName;
  }

  /** Every message is recorded, in order, at the latest time read by then; readings that run
      backwards are counted. */
  lemma {:induction false} TimesArePeaks(maxEvents: nat, sha: string -> string, os: seq<Observation>)
    requires Consistent(Fresh(maxEvents), sha)
    ensures var c := Play(Fresh(maxEvents), sha, os);
            && |c.history| == |os| && c.lastNS == Peak(os) && c.counts.clockRegressions == Backwards(os)
            && forall i :: 0 <= i < |os| ==> c.history[i] == Input(os[i].client, os[i].message, Peak(os[..i + 1]))
  {
    hide Consistent, Handle, Owned;
    if os != [] {
      var front, o := os[..|os| - 1], os[|os| - 1];
      TimesArePeaks(maxEvents, sha, front);
      var c := Play(Fresh(maxEvents), sha, front);
      ConsistentIs(c, sha);
      HandleTime(c, sha, o.client, o.message, o.elapsed);
      assert forall i :: 0 <= i < |front| ==> front[..i + 1] == os[..i + 1] && front[i] == os[i];
      assert os[..|os|] == os;
    }
  }

  // ---------- A complete capture ----------

  /** Entry e is the span of request i answered by message k, which names the same command. */
  predicate Tells(c: Core, sha: string -> string, i: nat, k: nat, e: nat) {
    && i < k < |c.history| && e < |c.events| && c.events[e].Span?
    && c.history[i].message.RequestMessage? && IsResponse(c.history[k], c.history[i].message.seq_)
    && sha(c.history[i].message.command) == sha(c.history[k].message.command)
    && Unlaned(c.events[e]) == Span(CommandName(c.history[i].message.command), c.history[i].time,
                                    c.history[k].time - c.history[i].time, -1,
                                    c.history[i].message.seq_, c.history[k].message.success)
  }

  /** What message k emitted is in the expected trace. */
  lemma {:induction false} EmittedIsExpected(h: seq<Input>, k: nat)
    requires k < |h|
    ensures forall e :: e in Emits(h[..k], h[k]) ==> e in Expected(h)
  {
    hide Emits;
    var front := h[..|h| - 1];
    if k < |h| - 1 {
      EmittedIsExpected(front, k);
      assert front[..k] == h[..k];
    }
  }

  lemma UnlanedEntry(c: Core, e: Event)
    requires e in AllUnlaned(c.events)
    ensures exists k: nat :: k < |c.events| && Unlaned(c.events[k]) == e
  {
    var k :| 0 <= k < |c.events| && AllUnlaned(c.events)[k] == e;
    assert Unlaned(c.events[k]) == e;
  }

  lemma RequestIsTold(c: Core, sha: string -> string, i: nat)
    requires Faithful(c, sha) && c.pending == map[]
    requires i < |c.history| && c.history[i].client
    ensures c.history[i].message.RequestMessage? && exists k: nat, e: nat :: Tells(c, sha, i, k, e)
  {
    hide RequestIndex, ResponseIndex, Expected, CommandName, AllUnlaned;
    var h := c.history;
    var s := h[i].message.seq_;
    var k := ResponseIndex(h, s);
    assert k > i;
    assert Answers(h, k, sha);
    var j := RequestIndex(h[..k], s);
    assert IsRequest(h[..k][j], s) && j == i;
    var span := Span(CommandName(h[i].message.command), h[i].time, h[k].time - h[i].time, -1, s, h[k].message.success);
    assert Emits(h[..k], h[k]) == [span];
    EmittedIsExpected(h, k);
    assert span in [span];
    UnlanedEntry(c, span);
    var e: nat :| e < |c.events| && Unlaned(c.events[e]) == span;
    assert Tells(c, sha, i, k, e);
  }

  lemma EventIsTold(c: Core, sha: string -> string, k: nat)
    requires Faithful(c, sha)
    requires k < |c.history| && c.history[k].message.EventMessage?
    ensures Instant(EventName(c.history[k].message.event), c.history[k].time) in c.events
  {
    hide RequestIndex, ResponseIndex, Expected, EventName, AllUnlaned;
    var h := c.history;
    var mark := Instant(EventName(h[k].message.event), h[k].time);
    assert Emits(h[..k], h[k]) == [mark];
    EmittedIsExpected(h, k);
    assert mark in [mark];
    UnlanedEntry(c, mark);
  }

  lemma OneResponse(h: seq<Input>, sha: string -> string, j: nat, k: nat, s: int)
    requires Paired(h, sha) && j < |h| && k < |h| && IsResponse(h[j], s) && IsResponse(h[k], s)
    ensures j == k
  {
    hide RequestIndex, ResponseIndex;
    assert Answers(h, j, sha) && Answers(h, k, sha);
    assert forall i :: 0 <= i < k ==> h[..k][i] == h[i];
    assert forall i :: 0 <= i < j ==> h[..j][i] == h[i];
  }

  /** If nothing was lost and nothing is pending, the trace is the expected one; every request
      was answered by a later message with the same command, by no other, and has its span;
      and every event has its mark. */
  lemma CaptureIsWhole(c: Core, sha: string -> string)
    requires Consistent(c, sha) && Clean(c.counts) && c.pending == map[]
    ensures AllUnlaned(c.events) == Expected(c.history)
    ensures forall i: nat :: i < |c.history| && c.history[i].client
                             ==> c.history[i].message.RequestMessage? && exists k: nat, e: nat :: Tells(c, sha, i, k, e)
    ensures forall j, k, s :: && 0 <= j < |c.history| && 0 <= k < |c.history|
                              && IsResponse(c.history[j], s) && IsResponse(c.history[k], s)
                              ==> j == k
    ensures forall k :: 0 <= k < |c.history| && c.history[k].message.EventMessage?
                        ==> Instant(EventName(c.history[k].message.event), c.history[k].time) in c.events
    ensures |c.events| == c.counts.observedRequests + c.counts.observedEvents
  {
    forall i: nat | i < |c.history| && c.history[i].client
      ensures c.history[i].message.RequestMessage? && exists k: nat, e: nat :: Tells(c, sha, i, k, e)
    {
      RequestIsTold(c, sha, i);
    }
    forall k: nat | k < |c.history| && c.history[k].message.EventMessage?
      ensures Instant(EventName(c.history[k].message.event), c.history[k].time) in c.events
    {
      EventIsTold(c, sha, k);
    }
    forall j: nat, k: nat, s | && j < |c.history| && k < |c.history|
                               && IsResponse(c.history[j], s) && IsResponse(c.history[k], s)
      ensures j == k
    {
      OneResponse(c.history, sha, j, k, s);
    }
    hide Owned, Timely, Marked, ToldOnce, Tells, EventName, AllUnlaned, Expected;
  }
}
