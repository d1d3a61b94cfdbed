/** The recorder as it runs: two byte streams observed in any interleaving, and the trace it
    hands out when it is finished (internal/perf/recorder.go, internal/perf/stream.go). */
module PerfRecording {

  import opened PerfRecorder
  import opened PerfAccount
  import opened PerfCapture
  import opened PerfStream

  const MAX_EVENTS := 100_000

  /** The finished trace: the request lanes it names, its entries and what it says of itself. */
  datatype Trace = Trace(
    lanes: seq<int>,
    events: seq<Event>,
    duration: int,
    counts: Counts,
    framingErrors: int,
    clientDisabled: bool,
    serverDisabled: bool,
    proxyFailed: bool,
    unfinished: int,
    complete: bool,
    summary: map<string, Summary>)

  const NO_TRACE := Trace([], [], 0, NO_COUNTS, 0, false, false, false, 0, false, map[])

  // ---------- Specification ----------

  datatype Recording = Recording(core: Core, framingErrors: int, ticks: nat, client: Stream, server: Stream)

  predicate Partial(s: Stream) {
    s.header != "" || s.readingBody
  }

  /** Between writes a stream holds an incomplete header block, an incomplete body or nothing. */
  predicate Formed(s: Stream) {
    if s.disabled then s == DISABLED
    else if s.readingBody then s.header == "" && |s.body| < s.bodyLength
    else s.body == "" && s.bodyLength == 0
  }

  function Errors(s: Stream): int {
    if s.disabled then 1 else 0
  }

  ghost predicate Sound(r: Recording, env: Environment) {
    && Consistent(r.core, env.sha) && Formed(r.client) && Formed(r.server)
    && r.framingErrors == Errors(r.client) + Errors(r.server)
  }

  /** The recording after data arrives in one direction. */
  ghost function Written(r: Recording, env: Environment, client: bool, data: string): (w: Recording)
    requires Consistent(r.core, env.sha)
  {
    var d := Feed(Channel(if client then r.client else r.server, r.core, r.framingErrors, r.ticks), env, client, data);
    if client then Recording(d.core, d.framingErrors, d.ticks, d.stream, r.server)
    else Recording(d.core, d.framingErrors, d.ticks, r.client, d.stream)
  }

  lemma StepByteShapes(ch: Channel, env: Environment, client: bool, b: char)
    requires Consistent(ch.core, env.sha) && Formed(ch.stream)
    ensures var d := StepByte(ch, env, client, b);
            Formed(d.stream) && d.framingErrors - Errors(d.stream) == ch.framingErrors - Errors(ch.stream)
  {
    hide Consistent, Handle, DecodeMessage;
  }

  lemma {:induction false} FeedShapes(ch: Channel, env: Environment, client: bool, data: string)
    requires Consistent(ch.core, env.sha) && Formed(ch.stream)
    ensures var d := Feed(ch, env, client, data);
            Formed(d.stream) && d.framingErrors - Errors(d.stream) == ch.framingErrors - Errors(ch.stream)
  {
    hide Consistent, StepByte;
    if data != "" {
      FeedShapes(ch, env, client, data[..|data| - 1]);
      StepByteShapes(Feed(ch, env, client, data[..|data| - 1]), env, client, data[|data| - 1]);
    }
  }

  /** Every write keeps the recording sound, whatever the bytes. */
  lemma WriteKeepsSound(r: Recording, env: Environment, client: bool, data: string)
    requires Sound(r, env)
    ensures Sound(Written(r, env, client, data), env)
  {
    hide Consistent, Feed;
    FeedShapes(Channel(if client then r.client else r.server, r.core, r.framingErrors, r.ticks), env, client, data);
  }

  /** The used lanes below n, in order. */
  function NamedLanes(used: seq<bool>, n: nat): seq<int>
    requires n <= |used|
  {
    if n == 0 then [] else NamedLanes(used, n - 1) + if used[n - 1] then [n - 1] else []
  }

  /** A partial stream is given up on. */
  function Closed(s: Stream): Stream {
    if !s.disabled && Partial(s) then DISABLED else s
  }

  predicate IsComplete(proxyFailed: bool, framingErrors: int, counts: Counts, unfinished: int) {
    !proxyFailed && framingErrors == 0 && Clean(counts) && unfinished == 0 && counts.clockRegressions == 0
  }

  /** What Finish hands out. */
  function FinishedTrace(r: Recording, env: Environment, proxyFailed: bool): Trace {
    var core := Stamp(r.core, env.now(r.ticks));
    var client, server := Closed(r.client), Closed(r.server);
    var errors := r.framingErrors + Errors(client) - Errors(r.client) + Errors(server) - Errors(r.server);
    Trace(NamedLanes(core.usedLanes, |core.usedLanes|), core.events, core.lastNS, core.counts, errors,
          client.disabled, server.disabled, proxyFailed, |core.pending|,
          IsComplete(proxyFailed, errors, core.counts, |core.pending|), core.summary)
  }

  lemma {:induction false} NamedExactly(used: seq<bool>, n: nat, l: int)
    requires n <= |used|
    ensures l in NamedLanes(used, n) <==> 0 <= l < n && used[l]
  {
    if n > 0 { NamedExactly(used, n - 1, l); }
  }

  /** The theorem of the recorder: a trace marked complete comes from two streams read to the
      end without a framing error, and shows all that was observed. */
  lemma CompleteTraceIsWhole(r: Recording, env: Environment, proxyFailed: bool)
    requires Sound(r, env)
    ensures var t := FinishedTrace(r, env, proxyFailed);
            t.complete ==>
              && r.client == IDLE && r.server == IDLE && !proxyFailed
              && Clean(r.core.counts) && r.core.pending == map[]
              && AllUnlaned(t.events) == Expected(r.core.history)
              && (forall i: nat :: i < |r.core.history| && r.core.history[i].client
                                   ==> exists k: nat, e: nat :: Tells(r.core, env.sha, i, k, e))
              && |t.events| == t.counts.observedRequests + t.counts.observedEvents
  {
    hide Consistent, AllUnlaned, Expected, Tells;
    var t := FinishedTrace(r, env, proxyFailed);
    if t.complete {
      CaptureIsWhole(r.core, env.sha);
    }
  }

  /** Complete or not, the trace is consistent: on no lane do two spans overlap, no request
      appears twice, exactly the lanes with spans are named, and every request observed and
      every event is accounted for. */
  lemma TraceIsConsistent(r: Recording, env: Environment, proxyFailed: bool)
    requires Sound(r, env)
    ensures var t := FinishedTrace(r, env, proxyFailed);
            && (forall i, j :: 0 <= i < j < |t.events| && SameLane(t.events[i], t.events[j])
                               ==> t.events[i].start <= End(t.events[i]) <= t.events[j].start)
            && (forall i, j :: 0 <= i < j < |t.events| && t.events[i].Span? && t.events[j].Span?
                               ==> t.events[i].requestSeq != t.events[j].requestSeq)
            && (forall i :: 0 <= i < |t.events| ==> End(t.events[i]) <= t.duration)
            && (forall l :: l in t.lanes <==> HasSpan(t.events, l))
            && Balance(t.counts, t.unfinished, |t.events|, r.core.maxEvents)
  {
    hide Owned, Faithful, NamedLanes, Clean, HasSpan, Balance, Tallied, Shown;
    assert Kept(r.core);
    var t := FinishedTrace(r, env, proxyFailed);
    forall l ensures l in t.lanes <==> HasSpan(t.events, l) {
      NamedExactly(r.core.usedLanes, |r.core.usedLanes|, l);
      assert HasSpan(r.core.events, l) <==> 0 <= l < |r.core.usedLanes| && r.core.usedLanes[l];
    }
    StampBalances(r.core, env.now(r.ticks));
  }

  lemma StampBalances(c: Core, elapsed: int)
    requires Balanced(c)
    ensures Balanced(Stamp(c, elapsed))
  {
  }

  /** The summary covers every correlated response, by command: how many, how many failed, their
      total and longest time. If no entry was dropped, these are the spans of the trace. */
  lemma SummaryIsExact(r: Recording, env: Environment, proxyFailed: bool, name: string)
    requires Sound(r, env)
    ensures var t, spans := FinishedTrace(r, env, proxyFailed), Named(r.core.answered, name);
            && AllSpans(r.core.answered) && |r.core.answered| == t.counts.completedRequests
            && Failures(r.core.answered) == t.counts.failedRequests
            && (name in t.summary <==> spans != [])
            && (name in t.summary ==> t.summary[name] == SummaryOf(spans))
            && (t.counts.droppedEvents == 0 ==> spans == Named(OnlySpans(t.events), name))
  {
    hide Owned, Faithful, NamedLanes, Clean, Timely, Balanced, Marked, ToldOnce, SummaryOf, OnlySpans, Named;
    assert Kept(r.core);
    assert SummaryAt(r.core.answered, r.core.summary, name);
  }

  /** Complete or not, the trace is what the messages observed amount to: every count is the number of
      messages that met that fate, the entries are those of the answers and the events in order, as
      far as there is room, and what is unfinished are the requests still waiting. */
  lemma TraceIsAccounted(r: Recording, env: Environment, proxyFailed: bool)
    requires Sound(r, env)
    ensures var t, h := FinishedTrace(r, env, proxyFailed), r.core.history;
            && CountsAre(h, env.sha, t.counts) && t.unfinished == |Waiting(h)|
            && EntriesAre(Entries(h, env.sha), t.events, r.core.maxEvents, t.counts.droppedEvents)
            && AllUnlaned(r.core.answered) == OnlySpans(Entries(h, env.sha))
  {
    hide Kept, ToldOnce, Faithful, Number, Waiting, Awaited, EntriesAre, Entries, OnlySpans, AllUnlaned;
    assert Accounted(r.core, env.sha);
  }

  /** Nothing happened to the message that the trace does not show. */
  ghost predicate InOrder(h: seq<Input>, i: nat, sha: string -> string)
    requires i < |h|
  {
    VerdictOf(h[..i], h[i], sha) in {Joins, Answers, Marks}
  }

  lemma {:induction false} NumberZero(h: seq<Input>, sha: string -> string, v: Verdict)
    ensures 0 <= Number(h, sha, v)
    ensures Number(h, sha, v) == 0 <==> forall i: nat :: i < |h| ==> VerdictOf(h[..i], h[i], sha) != v
  {
    hide VerdictOf;
    if h != [] {
      var front := h[..|h| - 1];
      NumberZero(front, sha, v);
      assert forall i: nat :: i < |front| ==> front[..i] == h[..i] && front[i] == h[i];
    }
  }

  lemma InOrderExactly(h: seq<Input>, sha: string -> string)
    ensures (forall i: nat :: i < |h| ==> InOrder(h, i, sha))
       <==> && Number(h, sha, NoRoom) == Number(h, sha, Duplicates) == Number(h, sha, Late) == 0
            && Number(h, sha, Mismatches) == Number(h, sha, Unmatched) == Number(h, sha, Ignored) == 0
  {
    hide VerdictOf, Number;
    NumberZero(h, sha, NoRoom);
    NumberZero(h, sha, Duplicates);
    NumberZero(h, sha, Late);
    NumberZero(h, sha, Mismatches);
    NumberZero(h, sha, Unmatched);
    NumberZero(h, sha, Ignored);
    assert forall i: nat :: i < |h| ==>
                              (InOrder(h, i, sha) <==> VerdictOf(h[..i], h[i], sha) in {Joins, Answers, Marks});
  }

  /** A trace is marked complete exactly if the proxy did not fail, both streams were read to their end,
      every message was in order and every request answered, all entries found room, and the clock was
      never read as running backwards. */
  lemma CompleteExactly(r: Recording, env: Environment, proxyFailed: bool)
    requires Sound(r, env)
    ensures var t, h := FinishedTrace(r, env, proxyFailed), r.core.history;
            t.complete <==>
            && !proxyFailed && r.client == IDLE && r.server == IDLE
            && (forall i: nat :: i < |h| ==> InOrder(h, i, env.sha)) && |Waiting(h)| == 0
            && |Entries(h, env.sha)| <= r.core.maxEvents && t.counts.clockRegressions == 0
    ensures var t := FinishedTrace(r, env, proxyFailed);
            && (t.clientDisabled <==> r.client != IDLE) && (t.serverDisabled <==> r.server != IDLE)
            && t.framingErrors == (if r.client != IDLE then 1 else 0) + (if r.server != IDLE then 1 else 0)
            && t.proxyFailed == proxyFailed
  {
    hide Consistent, Accounted, Number, Waiting, Entries, InOrder, NamedLanes, AllUnlaned, OnlySpans;
    var t, h := FinishedTrace(r, env, proxyFailed), r.core.history;
    TraceIsAccounted(r, env, proxyFailed);
    InOrderExactly(h, env.sha);
  }
}
