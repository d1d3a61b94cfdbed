/** The account of the recorder told from the messages alone: which requests are waiting after any
    history, what becomes of each message, and hence what every count and entry must be, whether or
    not anything was lost. */
module PerfAccount {

  import opened Prelude
  import opened PerfRecorder

  predicate IsRequest(x: Input, s: int) {
    x.client && x.message.RequestMessage? && x.message.seq_ == s
  }

  predicate IsResponse(x: Input, s: int) {
    !x.client && x.message.ResponseMessage? && x.message.requestSeq == s
  }

  /** An entry without the lane it is drawn on. */
  function Unlaned(e: Event): Event {
    if e.Span? then e.(lane := -1) else e
  }

  function AllUnlaned(es: seq<Event>): seq<Event> {
    seq(|es|, i requires 0 <= i < |es| => Unlaned(es[i]))
  }

  // ---------- Which requests are waiting ----------

  /** The highest number a client request has had. */
  function LastNumber(h: seq<Input>): int {
    if h == [] then 0
    else
      var before, x := LastNumber(h[..|h| - 1]), h[|h| - 1];
      if x.client && x.message.RequestMessage? then Max(before, x.message.seq_) else before
  }

  /** Message i is a client request numbered above all before it. */
  predicate Rises(h: seq<Input>, i: nat) {
    i < |h| && h[i].client && h[i].message.RequestMessage? && h[i].message.seq_ > LastNumber(h[..i])
  }

  /** The message asks under the number s, or responds to it. */
  predicate Touches(x: Input, s: int) {
    IsRequest(x, s) || IsResponse(x, s)
  }

  predicate Untouched(h: seq<Input>, i: nat)
    requires i < |h| && h[i].message.RequestMessage?
  {
    forall j :: i < j < |h| ==> !Touches(h[j], h[i].message.seq_)
  }

  /** Request i is waiting after h: numbered above all before it, it found room among those waiting
      then, and nothing has touched its number since. */
  ghost predicate Waits(h: seq<Input>, i: int)
    decreases |h|, 0
  {
    0 <= i < |h| && Rises(h, i) && |Waiting(h[..i])| < MAX_PENDING && Untouched(h, i)
  }

  ghost function Waiting(h: seq<Input>): (w: set<int>)
    ensures forall i :: i in w ==> 0 <= i < |h| && h[i].client && h[i].message.RequestMessage?
    decreases |h|, 1
  {
    set i | 0 <= i < |h| && Waits(h, i)
  }

  /** The waiting request numbered s, or -1. */
  ghost function Awaited(h: seq<Input>, s: int): (i: int)
    ensures i >= 0 ==> i in Waiting(h) && i < |h| && h[i].message.RequestMessage? && h[i].message.seq_ == s
    ensures i < 0 ==> i == -1 && forall j :: j in Waiting(h) ==> h[j].message.seq_ != s
  {
    if i :| i in Waiting(h) && h[i].message.seq_ == s then i else -1
  }

  lemma WaitingOnce(h: seq<Input>, i: int, j: int)
    requires i in Waiting(h) && j in Waiting(h) && h[i].message.seq_ == h[j].message.seq_
    ensures i == j
  {
    if i < j {
      assert Touches(h[j], h[i].message.seq_);
    } else if j < i {
      assert Touches(h[i], h[j].message.seq_);
    }
  }

  lemma StillUntouched(h: seq<Input>, x: Input, i: nat)
    requires i < |h| && h[i].message.RequestMessage?
    ensures Untouched(h + [x], i) <==> Untouched(h, i) && !Touches(x, h[i].message.seq_)
  {
    var g, s := h + [x], h[i].message.seq_;
    if Untouched(g, i) {
      forall j | i < j < |h| ensures !Touches(h[j], s) {
        assert g[j] == h[j];
      }
      assert g[|h|] == x;
    }
  }

  lemma WaitsNext(h: seq<Input>, x: Input, i: int)
    ensures var g := h + [x];
            Waits(g, i) <==> if i == |h| then Rises(g, |h|) && |Waiting(h)| < MAX_PENDING
            else Waits(h, i) && !Touches(x, h[i].message.seq_)
  {
    hide Untouched, LastNumber, Waiting, Touches;
    var g := h + [x];
    if i == |h| {
      assert g[..i] == h;
      LastUntouched(g);
    } else if 0 <= i < |h| {
      assert g[..i] == h[..i];
      if h[i].message.RequestMessage? { StillUntouched(h, x, i); }
    }
  }

  lemma LastUntouched(h: seq<Input>)
    ensures h != [] && h[|h| - 1].message.RequestMessage? ==> Untouched(h, |h| - 1)
  {
  }

  /** How one more message changes who is waiting. */
  lemma WaitingNext(h: seq<Input>, x: Input)
    ensures Waiting(h + [x])
         == (set i | i in Waiting(h) && !Touches(x, h[i].message.seq_))
            + if Rises(h + [x], |h|) && |Waiting(h)| < MAX_PENDING then {|h|} else {}
  {
    var g := h + [x];
    forall i ensures i in Waiting(g) <==> Waits(g, i) {}
    forall i ensures i in Waiting(h) <==> Waits(h, i) {}
    hide Waiting, Waits, Rises, Touches;
    forall i {
      WaitsNext(h, x, i);
    }
  }

  // ---------- What becomes of each message ----------

  datatype Verdict =
    | Joins            // a request that waits from now on
    | NoRoom
    | Duplicates       // asks again under a waiting number
    | Late             // asks under a number already passed
    | Answers          // the response a waiting request was for
    | Mismatches       // responds to a waiting request with another command
    | Unmatched
    | Marks            // an event
    | Ignored

  ghost function VerdictOf(h: seq<Input>, x: Input, sha: string -> string): Verdict {
    match x.message
    case RequestMessage(s, _) =>
      if !x.client then Ignored
      else if s > LastNumber(h) then (if |Waiting(h)| < MAX_PENDING then Joins else NoRoom)
      else if Awaited(h, s) >= 0 then Duplicates
      else Late
    case ResponseMessage(s, command, _) =>
      if x.client then Ignored
      else
        var i := Awaited(h, s);
        if i < 0 then Unmatched
        else if sha(h[i].message.command) == sha(command) then Answers
        else Mismatches
    case EventMessage(_) => if x.client then Ignored else Marks
  }

  /** What the message leaves in the trace: an answer the time since its request was observed,
      whether it succeeded or not, an event its moment. */
  ghost function EntriesOf(h: seq<Input>, x: Input, sha: string -> string): seq<Event> {
    if x.message.EventMessage? && VerdictOf(h, x, sha) == Marks then [Instant(EventName(x.message.event), x.time)]
    else if x.message.ResponseMessage? && VerdictOf(h, x, sha) == Answers then
      var i := Awaited(h, x.message.requestSeq);
      [Span(CommandName(h[i].message.command), h[i].time, x.time - h[i].time, -1,
            x.message.requestSeq, x.message.success)]
    else []
  }

  /** How many messages met this fate. */
  ghost function Number(h: seq<Input>, sha: string -> string, verdict: Verdict): int {
    if h == [] then 0
    else
      var front, x := h[..|h| - 1], h[|h| - 1];
      Number(front, sha, verdict) + if VerdictOf(front, x, sha) == verdict then 1 else 0
  }

  /** The trace if there were room for all of it. */
  ghost function Entries(h: seq<Input>, sha: string -> string): seq<Event> {
    if h == [] then [] else Entries(h[..|h| - 1], sha) + EntriesOf(h[..|h| - 1], h[|h| - 1], sha)
  }

  // ---------- The account ----------

  /** The pending requests are the waiting ones, each with its command and its time. */
  ghost predicate PendingAre(h: seq<Input>, pending: map<int, Request>, sha: string -> string) {
    && |pending| == |Waiting(h)|
    && (forall s :: s in pending <==> Awaited(h, s) >= 0)
    && (forall s :: s in pending ==> Noted(pending[s], h[Awaited(h, s)], sha))
  }

  predicate Noted(request: Request, x: Input, sha: string -> string)
    requires x.message.RequestMessage?
  {
    && request.name == CommandName(x.message.command) && request.digest == sha(x.message.command)
    && request.start == x.time
  }

  ghost predicate CountsAre(h: seq<Input>, sha: string -> string, n: Counts) {
    && n.observedRequests
       == Number(h, sha, Joins) + Number(h, sha, NoRoom) + Number(h, sha, Duplicates) + Number(h, sha, Late)
    && n.pendingLimitDrops == Number(h, sha, NoRoom)
    && n.duplicateRequests == Number(h, sha, Duplicates)
    && n.outOfOrderRequests == Number(h, sha, Late)
    && n.completedRequests == Number(h, sha, Answers)
    && n.commandMismatches == Number(h, sha, Mismatches)
    && n.unmatchedResponses == Number(h, sha, Unmatched)
    && n.abandonedRequests == Number(h, sha, Duplicates) + Number(h, sha, Mismatches)
    && n.observedEvents == Number(h, sha, Marks)
    && n.ignoredMessages == Number(h, sha, Ignored)
  }

  /** The trace is the beginning of all entries, as far as there is room, and the rest is counted. */
  ghost predicate EntriesAre(all: seq<Event>, events: seq<Event>, limit: int, dropped: int) {
    && |events| == Min(limit, |all|) && AllUnlaned(events) == all[..|events|] && dropped == |all| - |events|
  }

  ghost predicate Accounted(c: Core, sha: string -> string) {
    && c.lastRequestSeq == LastNumber(c.history)
    && PendingAre(c.history, c.pending, sha)
    && CountsAre(c.history, sha, c.counts)
    && EntriesAre(Entries(c.history, sha), c.events, c.maxEvents, c.counts.droppedEvents)
    && AllUnlaned(c.answered) == OnlySpans(Entries(c.history, sha))
  }

  // ---------- One more message ----------

  lemma HistoryNext(h: seq<Input>, x: Input, sha: string -> string, verdict: Verdict)
    ensures Number(h + [x], sha, verdict) == Number(h, sha, verdict) + if VerdictOf(h, x, sha) == verdict then 1 else 0
    ensures Entries(h + [x], sha) == Entries(h, sha) + EntriesOf(h, x, sha)
    ensures LastNumber(h + [x])
         == if x.client && x.message.RequestMessage? then Max(LastNumber(h), x.message.seq_) else LastNumber(h)
  {
    assert (h + [x])[..|h|] == h;
    hide VerdictOf, EntriesOf;
  }

  lemma CountsNext(h: seq<Input>, x: Input, sha: string -> string, n: Counts, m: Counts)
    requires CountsAre(h, sha, n)
    requires var v := VerdictOf(h, x, sha);
             m == n.(observedRequests := n.observedRequests +
             if v.Joins? || v.NoRoom? || v.Duplicates? || v.Late? then 1 else 0,
             pendingLimitDrops := n.pendingLimitDrops + if v.NoRoom? then 1 else 0,
             duplicateRequests := n.duplicateRequests + if v.Duplicates? then 1 else 0,
             outOfOrderRequests := n.outOfOrderRequests + if v.Late? then 1 else 0,
             completedRequests := n.completedRequests + if v.Answers? then 1 else 0,
             commandMismatches := n.commandMismatches + if v.Mismatches? then 1 else 0,
             unmatchedResponses := n.unmatchedResponses + if v.Unmatched? then 1 else 0,
             abandonedRequests := n.abandonedRequests + if v.Duplicates? || v.Mismatches? then 1 else 0,
             observedEvents := n.observedEvents + if v.Marks? then 1 else 0,
             ignoredMessages := n.ignoredMessages + if v.Ignored? then 1 else 0,
             failedRequests := m.failedRequests, droppedEvents := m.droppedEvents,
             clockRegressions := m.clockRegressions)
    ensures CountsAre(h + [x], sha, m)
  {
    HistoryNext(h, x, sha, Joins);
    HistoryNext(h, x, sha, NoRoom);
    HistoryNext(h, x, sha, Duplicates);
    HistoryNext(h, x, sha, Late);
    HistoryNext(h, x, sha, Answers);
    HistoryNext(h, x, sha, Mismatches);
    HistoryNext(h, x, sha, Unmatched);
    HistoryNext(h, x, sha, Marks);
    HistoryNext(h, x, sha, Ignored);
    hide Number, VerdictOf, Entries, EntriesOf, LastNumber;
  }

  predicate Entering(h: seq<Input>, x: Input) {
    x.client && x.message.RequestMessage? && x.message.seq_ > LastNumber(h)
  }

  lemma RisesLast(h: seq<Input>, x: Input)
    ensures Rises(h + [x], |h|) <==> Entering(h, x)
  {
    assert (h + [x])[..|h|] == h && (h + [x])[|h|] == x;
  }

  /** A waiting number is not above the last one. */
  lemma WaitingBelow(h: seq<Input>, i: int)
    requires i in Waiting(h)
    ensures h[i].message.seq_ <= LastNumber(h)
  {
    hide Waiting;
    NumberReached(h, i);
  }

  lemma {:induction false} NumberReached(h: seq<Input>, i: nat)
    requires i < |h| && h[i].client && h[i].message.RequestMessage?
    ensures h[i].message.seq_ <= LastNumber(h)
  {
    if i < |h| - 1 { NumberReached(h[..|h| - 1], i); }
  }

  lemma AwaitedIs(h: seq<Input>, i: int)
    requires i in Waiting(h)
    ensures Awaited(h, h[i].message.seq_) == i
  {
    WaitingOnce(h, i, Awaited(h, h[i].message.seq_));
  }

  /** Who is waiting under a number after one more message. */
  lemma AwaitedNext(h: seq<Input>, x: Input, s: int)
    ensures Awaited(h + [x], s) == if Entering(h, x) && x.message.seq_ == s && |Waiting(h)| < MAX_PENDING then |h|
                                   else if Touches(x, s) then -1
                                   else Awaited(h, s)
  {
    var g := h + [x];
    WaitingNext(h, x);
    RisesLast(h, x);
    hide Waiting, Waits, Rises, LastNumber;
    var i := Awaited(h, s);
    if Entering(h, x) && x.message.seq_ == s && |Waiting(h)| < MAX_PENDING {
      assert g[|h|] == x;
      AwaitedIs(g, |h|);
    } else if i >= 0 && !Touches(x, s) {
      assert g[i] == h[i];
      AwaitedIs(g, i);
    }
  }

  lemma WaitingCount(h: seq<Input>, x: Input)
    ensures |Waiting(h + [x])| == |Waiting(h)|
                                  + (if Entering(h, x) && |Waiting(h)| < MAX_PENDING then 1 else 0)
                                  - (if exists s :: Touches(x, s) && Awaited(h, s) >= 0 then 1 else 0)
  {
    WaitingNext(h, x);
    RisesLast(h, x);
    hide Waiting, Waits, Rises, LastNumber;
    var kept := set i | i in Waiting(h) && !Touches(x, h[i].message.seq_);
    if s :| Touches(x, s) && Awaited(h, s) >= 0 {
      var i := Awaited(h, s);
      forall j | j in Waiting(h) && Touches(x, h[j].message.seq_) ensures j == i {
        AwaitedIs(h, j);
      }
      assert kept == Waiting(h) - {i};
    } else {
      forall j | j in Waiting(h) ensures !Touches(x, h[j].message.seq_) {
        AwaitedIs(h, j);
      }
      assert kept == Waiting(h);
    }
    assert |h| !in kept;
  }

  lemma NoneAbove(h: seq<Input>, s: int)
    ensures Awaited(h, s) >= 0 ==> s <= LastNumber(h)
  {
    hide Waiting;
    var i := Awaited(h, s);
    if i >= 0 { WaitingBelow(h, i); }
  }

  lemma PendingJoins(h: seq<Input>, x: Input, sha: string -> string, pending: map<int, Request>, request: Request)
    requires PendingAre(h, pending, sha) && Entering(h, x) && |Waiting(h)| < MAX_PENDING && Noted(request, x, sha)
    ensures PendingAre(h + [x], pending[x.message.seq_ := request], sha)
  {
    hide Waiting, Awaited, Noted, LastNumber;
    var g, s := h + [x], x.message.seq_;
    NoneAbove(h, s);
    WaitingCount(h, x);
    assert forall t :: Touches(x, t) ==> t == s;
    forall t ensures t in pending[s := request] <==> Awaited(g, t) >= 0
      ensures t in pending[s := request] ==> Noted(pending[s := request][t], g[Awaited(g, t)], sha)
    {
      AwaitedNext(h, x, t);
    }
  }

  lemma PendingLeaves(h: seq<Input>, x: Input, sha: string -> string, pending: map<int, Request>, s: int)
    requires PendingAre(h, pending, sha) && Touches(x, s) && s in pending
    ensures PendingAre(h + [x], pending - {s}, sha)
  {
    hide Waiting, Awaited, Noted, LastNumber;
    var g := h + [x];
    NoneAbove(h, s);
    WaitingCount(h, x);
    OneFewer(pending, s, pending - {s});
    forall t ensures t in pending - {s} <==> Awaited(g, t) >= 0
      ensures t in pending - {s} ==> Noted(pending[t], g[Awaited(g, t)], sha)
    {
      AwaitedNext(h, x, t);
    }
  }

  lemma PendingStays(h: seq<Input>, x: Input, sha: string -> string, pending: map<int, Request>)
    requires PendingAre(h, pending, sha) && (forall s :: Touches(x, s) ==> s !in pending)
    requires Entering(h, x) ==> |Waiting(h)| >= MAX_PENDING
    ensures PendingAre(h + [x], pending, sha)
  {
    hide Waiting, Awaited, Noted, LastNumber;
    var g := h + [x];
    WaitingCount(h, x);
    forall t ensures t in pending <==> Awaited(g, t) >= 0
      ensures t in pending ==> Noted(pending[t], g[Awaited(g, t)], sha)
    {
      AwaitedNext(h, x, t);
    }
  }

  // ---------- Entries ----------

  lemma UnlanedAppended(es: seq<Event>, e: Event)
    ensures AllUnlaned(es + [e]) == AllUnlaned(es) + [Unlaned(e)]
  {
  }

  /** One more entry is kept or counted as dropped. */
  lemma EntryNext(all: seq<Event>, c: Core, e: Event)
    requires EntriesAre(all, c.events, c.maxEvents, c.counts.droppedEvents)
    ensures var d := AppendEvent(c, e); EntriesAre(all + [Unlaned(e)], d.events, d.maxEvents, d.counts.droppedEvents)
  {
    UnlanedAppended(c.events, e);
    hide AllUnlaned, Unlaned;
  }

  // ---------- Every message keeps the account ----------

  /** The account before the last message x of the history, which has just arrived. */
  ghost predicate Due(c: Core, h: seq<Input>, x: Input, sha: string -> string) {
    && Owned(c) && c.history == h + [x] && x.time == c.lastNS
    && Accounted(c.(history := h), sha)
  }

  /** What a request does to the books. */
  lemma RequestEffect(c: Core, s: int, command: string, digest: string)
    requires Owned(c)
    ensures var d := OnRequest(c, s, command, digest);
            var n := c.counts.(observedRequests := c.counts.observedRequests + 1);
            && d.history == c.history && d.maxEvents == c.maxEvents && d.events == c.events && d.answered == c.answered
            && d.lastRequestSeq == Max(c.lastRequestSeq, s)
            && (s <= c.lastRequestSeq ==> d.pending == c.pending - {s})
            && (s <= c.lastRequestSeq && s in c.pending ==> d.counts == Duplicated(n))
            && (s <= c.lastRequestSeq && s !in c.pending ==>
                  d.counts == n.(outOfOrderRequests := n.outOfOrderRequests + 1))
            && (s > c.lastRequestSeq && |c.pending| == MAX_PENDING ==>
                  d.pending == c.pending && d.counts == n.(pendingLimitDrops := n.pendingLimitDrops + 1))
            && (s > c.lastRequestSeq && |c.pending| != MAX_PENDING ==>
                  && s in d.pending && d.pending == c.pending[s := d.pending[s]] && d.counts == n
                  && d.pending[s] == Request(CommandName(command), digest, c.lastNS, d.pending[s].lane))
            && |c.pending| <= MAX_PENDING
  {
    if s > c.lastRequestSeq && |c.pending| != MAX_PENDING { LaneExists(c); }
    assert s !in c.pending ==> c.pending - {s} == c.pending;
    hide CommandName;
  }

  lemma RequestVerdict(h: seq<Input>, x: Input, sha: string -> string, pending: map<int, Request>)
    requires PendingAre(h, pending, sha) && |pending| <= MAX_PENDING && x.client && x.message.RequestMessage?
    ensures var s := x.message.seq_;
            VerdictOf(h, x, sha)
            == if s > LastNumber(h) then (if |pending| == MAX_PENDING then NoRoom else Joins)
            else if s in pending then Duplicates else Late
    ensures EntriesOf(h, x, sha) == []
  {
    hide LastNumber, Waiting, Awaited;
  }

  lemma PendingAfterRequest(h: seq<Input>, x: Input, sha: string -> string, pending: map<int, Request>,
                            after: map<int, Request>)
    requires PendingAre(h, pending, sha) && |pending| <= MAX_PENDING && x.client && x.message.RequestMessage?
    requires var s := x.message.seq_;
             if s <= LastNumber(h) then after == pending - {s}
             else if |pending| == MAX_PENDING then after == pending
             else s in after && Noted(after[s], x, sha) && after == pending[s := after[s]]
    ensures PendingAre(h + [x], after, sha)
  {
    hide Waiting, LastNumber, Noted, Awaited;
    var s := x.message.seq_;
    assert forall t :: Touches(x, t) ==> t == s;
    NoneAbove(h, s);
    if s > LastNumber(h) && |pending| != MAX_PENDING {
      PendingJoins(h, x, sha, pending, after[s]);
    } else if s in pending {
      PendingLeaves(h, x, sha, pending, s);
    } else {
      PendingStays(h, x, sha, pending);
      assert pending - {s} == pending;
    }
    hide PendingAre;
  }

  lemma RequestAccounted(c: Core, h: seq<Input>, x: Input, sha: string -> string)
    requires Due(c, h, x, sha) && x.client && x.message.RequestMessage?
    ensures Accounted(OnRequest(c, x.message.seq_, x.message.command, sha(x.message.command)), sha)
  {
    hide PendingAre, Owned, VerdictOf, EntriesOf, OnlySpans, EntriesAre, AllUnlaned, CountsAre, CommandName;
    hide OnRequest, Number, Entries, LastNumber, Noted;
    var s := x.message.seq_;
    var d := OnRequest(c, s, x.message.command, sha(x.message.command));
    RequestEffect(c, s, x.message.command, sha(x.message.command));
    RequestVerdict(h, x, sha, c.pending);
    HistoryNext(h, x, sha, Joins);
    if s > c.lastRequestSeq && |c.pending| != MAX_PENDING { NotedIs(d.pending[s], x, sha); }
    PendingAfterRequest(h, x, sha, c.pending, d.pending);
    CountsNext(h, x, sha, c.counts, d.counts);
    assert Entries(h, sha) + [] == Entries(h, sha);
  }

  lemma NotedIs(request: Request, x: Input, sha: string -> string)
    requires x.message.RequestMessage?
    requires request == Request(CommandName(x.message.command), sha(x.message.command), x.time, request.lane)
    ensures Noted(request, x, sha)
  {
  }

  /** What a response to a waiting request leaves. */
  lemma AnswerEntry(h: seq<Input>, x: Input, sha: string -> string, pending: map<int, Request>)
    requires PendingAre(h, pending, sha) && !x.client && x.message.ResponseMessage?
    ensures var s := x.message.requestSeq;
            && VerdictOf(h, x, sha) == (if s !in pending then Unmatched
                                        else if pending[s].digest == sha(x.message.command) then Answers
                                        else Mismatches)
            && EntriesOf(h, x, sha) == (if VerdictOf(h, x, sha) == Answers
                                        then [Unlaned(SpanOf(pending[s], s, x.message.success, x.time))] else [])
  {
    hide Waiting, Awaited, CommandName, EventName;
  }

  lemma SpansOfEntries(all: seq<Event>, answered: seq<Event>, e: Event)
    requires AllUnlaned(answered) == OnlySpans(all) && e.Span?
    ensures AllUnlaned(answered + [e]) == OnlySpans(all + [Unlaned(e)])
  {
    UnlanedAppended(answered, e);
    SpansAppended(all, Unlaned(e));
    hide AllUnlaned, OnlySpans;
  }

  lemma PendingAfterResponse(h: seq<Input>, x: Input, sha: string -> string, pending: map<int, Request>)
    requires PendingAre(h, pending, sha) && !x.client && x.message.ResponseMessage?
    ensures PendingAre(h + [x], pending - {x.message.requestSeq}, sha)
  {
    hide PendingAre, LastNumber, Waiting;
    var s := x.message.requestSeq;
    if s in pending {
      PendingLeaves(h, x, sha, pending, s);
    } else {
      PendingStays(h, x, sha, pending);
      assert pending - {s} == pending;
    }
  }

  /** What a response does apart from the entry of an answer. */
  lemma ResponseEffect(c: Core, s: int, digest: string, success: bool)
    requires Owned(c)
    ensures var d, n := OnResponse(c, s, digest, success), c.counts;
            && d.history == c.history && d.lastRequestSeq == c.lastRequestSeq && d.maxEvents == c.maxEvents
            && d.pending == c.pending - {s}
            && (s !in c.pending ==> d.counts == n.(unmatchedResponses := n.unmatchedResponses + 1))
            && (s in c.pending && digest != c.pending[s].digest ==> d.counts == Mismatched(n))
            && (s !in c.pending || digest != c.pending[s].digest ==> d.events == c.events && d.answered == c.answered)
            && (s in c.pending && digest == c.pending[s].digest ==>
                  var span := SpanOf(c.pending[s], s, success, c.lastNS);
                  && d.answered == c.answered + [span] && d.events == AppendEvent(c, span).events
                  && d.counts == Completed(n, success).(droppedEvents := AppendEvent(c, span).counts.droppedEvents))
  {
    hide Tally, Held;
    assert s !in c.pending ==> c.pending - {s} == c.pending;
  }

  lemma ResponseAccounted(c: Core, h: seq<Input>, x: Input, sha: string -> string)
    requires Due(c, h, x, sha) && !x.client && x.message.ResponseMessage?
    ensures Accounted(OnResponse(c, x.message.requestSeq, sha(x.message.command), x.message.success), sha)
  {
    hide PendingAre, Owned, VerdictOf, EntriesOf, OnlySpans, EntriesAre, AllUnlaned, Unlaned, CountsAre, SpanOf;
    hide OnResponse, Number, Entries, LastNumber, AppendEvent;
    var s := x.message.requestSeq;
    var d := OnResponse(c, s, sha(x.message.command), x.message.success);
    AnswerEntry(h, x, sha, c.pending);
    PendingAfterResponse(h, x, sha, c.pending);
    ResponseEffect(c, s, sha(x.message.command), x.message.success);
    HistoryNext(h, x, sha, Joins);
    CountsNext(h, x, sha, c.counts, d.counts);
    var all := Entries(h, sha);
    assert all + [] == all;
    if VerdictOf(h, x, sha) == Answers {
      var span := SpanOf(c.pending[s], s, x.message.success, c.lastNS);
      SpansOfEntries(all, c.answered, span);
      EntryNext(all, c, span);
      AppendLimit(c, span);
    }
  }

  lemma AppendLimit(c: Core, e: Event)
    ensures AppendEvent(c, e).maxEvents == c.maxEvents
  {
  }

  /** Something the other side would have had to say. */
  predicate OutOfPlace(x: Input) {
    x.client != x.message.RequestMessage?
  }

  lemma OtherVerdict(h: seq<Input>, x: Input, sha: string -> string)
    ensures OutOfPlace(x) ==> VerdictOf(h, x, sha) == Ignored && EntriesOf(h, x, sha) == []
    ensures !x.client && x.message.EventMessage?
            ==> VerdictOf(h, x, sha) == Marks && EntriesOf(h, x, sha) == [Instant(EventName(x.message.event), x.time)]
  {
    hide EventName;
  }

  lemma EventAccounted(c: Core, h: seq<Input>, x: Input, sha: string -> string)
    requires Due(c, h, x, sha) && !x.client && x.message.EventMessage?
    ensures Accounted(OnEvent(c, x.message.event), sha)
  {
    hide PendingAre, Owned, VerdictOf, EntriesOf, OnlySpans, EntriesAre, AllUnlaned, CountsAre, EventName;
    hide Number, Entries, LastNumber, Waiting;
    var d := OnEvent(c, x.message.event);
    var e := Instant(EventName(x.message.event), c.lastNS);
    OtherVerdict(h, x, sha);
    PendingStays(h, x, sha, c.pending);
    CountsNext(h, x, sha, c.counts, d.counts);
    HistoryNext(h, x, sha, Joins);
    var all := Entries(h, sha);
    SpansAppended(all, e);
    EntryNext(all, c.(counts := c.counts.(observedEvents := c.counts.observedEvents + 1)), e);
  }

  lemma IgnoreAccounted(c: Core, h: seq<Input>, x: Input, sha: string -> string)
    requires Due(c, h, x, sha) && OutOfPlace(x)
    ensures Accounted(Ignore(c), sha)
  {
    hide PendingAre, Owned, VerdictOf, EntriesOf, OnlySpans, EntriesAre, AllUnlaned, CountsAre, EventName;
    hide Number, Entries, LastNumber, Waiting;
    OtherVerdict(h, x, sha);
    PendingStays(h, x, sha, c.pending);
    CountsNext(h, x, sha, c.counts, Ignore(c).counts);
    HistoryNext(h, x, sha, Joins);
    assert Entries(h, sha) + [] == Entries(h, sha);
  }

  lemma ArrivesDue(c: Core, sha: string -> string, client: bool, message: Message, elapsed: int)
    requires Owned(c) && Accounted(c, sha)
    ensures var d := Arrive(c, client, message, elapsed); Due(d, c.history, Input(client, message, d.lastNS), sha)
  {
    hide PendingAre, Held, EntriesAre, AllUnlaned, OnlySpans, Entries, Number, LastNumber;
  }

  lemma OwnedDue(c: Core, h: seq<Input>, x: Input, sha: string -> string)
    requires Due(c, h, x, sha)
    ensures Owned(c)
  {
  }

  /** Whatever arrives, in whichever order: the account stays exact. */
  lemma HandleAccounted(c: Core, sha: string -> string, client: bool, message: Message, elapsed: int)
    requires Owned(c) && Accounted(c, sha)
    ensures Accounted(Handle(c, sha, client, message, elapsed), sha)
  {
    hide Accounted, Due, Arrive, OnRequest, OnResponse, OnEvent, Ignore, Owned;
    var d := Arrive(c, client, message, elapsed);
    var x := Input(client, message, d.lastNS);
    ArrivesDue(c, sha, client, message, elapsed);
    OwnedDue(d, c.history, x, sha);
    match message {
      case RequestMessage(_, _) =>
        if client { RequestAccounted(d, c.history, x, sha); } else { IgnoreAccounted(d, c.history, x, sha); }
      case ResponseMessage(_, _, _) =>
        if client { IgnoreAccounted(d, c.history, x, sha); } else { ResponseAccounted(d, c.history, x, sha); }
      case EventMessage(_) =>
        if client { IgnoreAccounted(d, c.history, x, sha); } else { EventAccounted(d, c.history, x, sha); }
    }
  }

  lemma FreshAccounted(maxEvents: nat, sha: string -> string)
    ensures Accounted(Fresh(maxEvents), sha)
  {
    assert Waiting([]) == {};
  }

  /** In every state: a response that names a waiting request settles it. It is completed if and only
      if it names the same command, whatever its success, and leaves the span from the request to
      it; otherwise it is a mismatch. */
  lemma ResponseSettles(c: Core, sha: string -> string, s: int, command: string, success: bool, elapsed: int, d: Core)
    requires Owned(c) && Accounted(c, sha)
    requires d == Handle(c, sha, false, ResponseMessage(s, command, success), elapsed)
    ensures var i := Awaited(c.history, s);
            var same := i >= 0 && sha(c.history[i].message.command) == sha(command);
            && d.counts.completedRequests == c.counts.completedRequests + (if same then 1 else 0)
            && d.counts.failedRequests == c.counts.failedRequests + (if same && !success then 1 else 0)
            && d.counts.commandMismatches == c.counts.commandMismatches + (if i >= 0 && !same then 1 else 0)
            && d.counts.unmatchedResponses == c.counts.unmatchedResponses + (if i < 0 then 1 else 0)
            && AllUnlaned(d.answered) == AllUnlaned(c.answered)
                                         + (if same then
                                              [Span(CommandName(c.history[i].message.command), c.history[i].time,
                                                    d.lastNS - c.history[i].time, -1, s, success)] else [])
  {
    hide OnResponse, Accounted, Awaited, CommandName, AllUnlaned, AppendEvent, Owned, Arrive;
    var a := Arrive(c, false, ResponseMessage(s, command, success), elapsed);
    PendingIs(c, sha, s);
    ArriveOnly(c, false, ResponseMessage(s, command, success), elapsed);
    ResponseEffect(a, s, sha(command), success);
    ResponseTime(a, s, sha(command), success);
    assert AllUnlaned(c.answered) + [] == AllUnlaned(c.answered);
    if s in c.pending {
      UnlanedAppended(c.answered, SpanOf(c.pending[s], s, success, a.lastNS));
    }
  }

  lemma ArriveOnly(c: Core, client: bool, message: Message, elapsed: int)
    requires Owned(c)
    ensures var d := Arrive(c, client, message, elapsed);
            && Owned(d) && d.pending == c.pending && d.answered == c.answered
            && d.counts == c.counts.(clockRegressions := d.counts.clockRegressions)
  {
    hide Held;
  }

  lemma PendingIs(c: Core, sha: string -> string, s: int)
    requires Accounted(c, sha)
    ensures var i := Awaited(c.history, s);
            && (s in c.pending <==> i >= 0)
            && (i >= 0 ==> Noted(c.pending[s], c.history[i], sha))
  {
    hide Waiting, Awaited, Number, Entries, OnlySpans, EntriesAre, CountsAre, CommandName, AllUnlaned;
  }

  lemma ResponseTime(c: Core, s: int, digest: string, success: bool)
    requires Owned(c)
    ensures OnResponse(c, s, digest, success).lastNS == c.lastNS
  {
    hide Held, Tally;
  }
}
