/** The recorder object: fields updated in place as bytes are observed, proved against the
    recording it stands for (internal/perf/recorder.go, internal/perf/stream.go). */
module PerfObserver {

  import opened Prelude
  import opened Decimal
  import opened FrameHeader
  import opened PerfRecorder
  import opened PerfCapture
  import opened PerfStream
  import opened PerfRecording

  /** bytes.Split of a header block at line ends. */
  function SplitLines(block: string, start: nat, i: nat): (lines: seq<string>)
    requires start <= i <= |block|
    ensures |lines| >= 1
    ensures |lines| == 1 ==> lines[0] == block[start..]
    ensures |lines| > 1 ==> exists k :: i <= k < |block| && block[k] == '\r'
    decreases |block| - i
  {
    if i + 2 > |block| then [block[start..]]
    else if block[i..i + 2] == LINE_END then
      assert block[i..i + 2][0] == '\r';
      [block[start..i]] + SplitLines(block, i + 2, i + 2)
    else SplitLines(block, start, i + 1)
  }

  /** The one Content-Length line of a block. */
  method ContentLength(header: string) returns (r: Option<nat>)
    requires EndsHeader(header)
    ensures r == BlockLength(header)
  {
    hide FieldLength, SplitLines;
    if |header| > MAX_HEADER_LENGTH { return None; }
    var block := header[..|header| - 4];
    var lines := SplitLines(block, 0, 0);
    var found := false;
    var length := 0;
    for i := 0 to |lines|
      invariant found <==> i > 0
      invariant i <= 1
      invariant i == 1 ==> '\r' !in lines[0] && '\n' !in lines[0] && FieldLength(lines[0]) == Some(length)
    {
      var line := lines[i];
      if '\r' in line || '\n' in line {
        LineOfBlock(block, i);
        return None;
      }
      var parsed := ParseLine(line);
      if parsed.None? || found { return None; }
      length := parsed.value;
      found := true;
    }
    return if found then Some(length) else None;
  }

  lemma LineOfBlock(block: string, i: nat)
    requires i < |SplitLines(block, 0, 0)| && i <= 1
    requires var line := SplitLines(block, 0, 0)[i]; '\r' in line || '\n' in line
    ensures '\r' in block || '\n' in block
  {
  }

  method ParseLine(line: string) returns (r: Option<nat>)
    ensures r == FieldLength(line)
  {
    var colon := Find(line, ':');
    if colon == |line| || !IsFieldName(line[..colon]) { return None; }
    var value := TrimSpace(line[colon + 1..]);
    var parsed := ParseUint(value);
    if parsed.None? || parsed.value > MAX_CONTENT_LENGTH { return None; }
    return parsed;
  }

  class Recorder {
    const env: Environment
    const maxEvents: int
    var ticks: nat
    var lastNS: int
    var finished: bool
    var frozen: Trace
    var client: Stream
    var server: Stream
    var events: seq<Event>
    var counts: Counts
    var summary: map<string, Summary>
    var framingErrors: int
    var lastRequestSeq: int
    var pending: map<int, Request>
    const lanes: array<bool>
    const usedLanes: array<bool>
    ghost var history: seq<Input>
    ghost var answered: seq<Event>

    ghost function Model(): Core
      reads this, lanes, usedLanes
    {
      Core(maxEvents, lastNS, lastRequestSeq, pending, lanes[..], usedLanes[..], events, counts, summary, history,
           answered)
    }

    ghost function State(): Recording
      reads this, lanes, usedLanes
    {
      Recording(Model(), framingErrors, ticks, client, server)
    }

    ghost predicate Valid()
      reads this, lanes, usedLanes
    {
      lanes != usedLanes && usedLanes.Length == MAX_PENDING && (!finished ==> Sound(State(), env))
    }

    constructor (maxEvents: nat, env: Environment)
      ensures Valid() && !finished
      ensures State() == Recording(Fresh(maxEvents), 0, 0, IDLE, IDLE)
      ensures fresh(lanes) && fresh(usedLanes) && this.env == env
    {
      this.maxEvents := maxEvents;
      this.env := env;
      ticks, lastNS, finished, frozen := 0, 0, false, NO_TRACE;
      client, server := IDLE, IDLE;
      events, counts, framingErrors, lastRequestSeq, pending := [], NO_COUNTS, 0, 0, map[];
      lanes := new bool[MAX_PENDING](_ => false);
      usedLanes := new bool[MAX_PENDING](_ => false);
      summary, history, answered := map[], [], [];
      new;
      assert Model() == Fresh(maxEvents);
      FreshIsConsistent(maxEvents, env.sha);
    }

    method Timestamp() returns (time: int)
      modifies this`ticks, this`lastNS, this`counts
      ensures Model() == Stamp(old(Model()), env.now(old(ticks))) && ticks == old(ticks) + 1 && time == lastNS
    {
      var elapsed := env.now(ticks);
      ticks := ticks + 1;
      if elapsed < lastNS {
        elapsed := lastNS;
        counts := counts.(clockRegressions := counts.clockRegressions + 1);
      }
      lastNS := elapsed;
      return elapsed;
    }

    method Append(e: Event) returns (retained: bool)
      modifies this`events, this`counts
      ensures Model() == AppendEvent(old(Model()), e)
      ensures retained == (|old(events)| != maxEvents)
    {
      if |events| == maxEvents {
        counts := counts.(droppedEvents := counts.droppedEvents + 1);
        return false;
      }
      events := events + [e];
      return true;
    }

    method OnRequest(s: int, command: string, timestamp: int)
      requires Owned(Model()) && lanes != usedLanes && timestamp == lastNS
      modifies this`counts, this`pending, this`lastRequestSeq, lanes
      ensures Model() == PerfRecorder.OnRequest(old(Model()), s, command, env.sha(command))
    {
      hide Holder, CommandName;
      counts := counts.(observedRequests := counts.observedRequests + 1);
      if s <= lastRequestSeq {
        if s in pending {
          var previous := pending[s];
          pending := pending - {s};
          lanes[previous.lane] := false;
          counts := Duplicated(counts);
        } else {
          counts := counts.(outOfOrderRequests := counts.outOfOrderRequests + 1);
        }
        return;
      }
      lastRequestSeq := s;
      if |pending| == MAX_PENDING {
        counts := counts.(pendingLimitDrops := counts.pendingLimitDrops + 1);
        return;
      }
      LaneExists(old(Model()));
      var lane := 0;
      while lanes[lane]
        invariant 0 <= lane <= FreeLane(lanes[..], 0)
        decreases MAX_PENDING - lane
      {
        lane := lane + 1;
      }
      lanes[lane] := true;
      pending := pending[s := Request(CommandName(command), env.sha(command), timestamp, lane)];
    }

    method OnResponse(s: int, command: string, success: bool, timestamp: int)
      requires Owned(Model()) && lanes != usedLanes && timestamp == lastNS
      modifies this`counts, this`pending, this`events, this`summary, this`answered, lanes, usedLanes
      ensures Model() == PerfRecorder.OnResponse(old(Model()), s, env.sha(command), success)
    {
      hide Holder, PerfRecorder.Complete;
      if s !in pending {
        counts := counts.(unmatchedResponses := counts.unmatchedResponses + 1);
        return;
      }
      var request := pending[s];
      pending := pending - {s};
      lanes[request.lane] := false;
      if env.sha(command) != request.digest {
        counts := Mismatched(counts);
        return;
      }
      assert Model() == Release(old(Model()), s);
      Answer(request, s, success, timestamp);
    }

    method Answer(request: Request, s: int, success: bool, timestamp: int)
      requires 0 <= request.lane < usedLanes.Length && lanes != usedLanes && timestamp == lastNS
      modifies this`counts, this`events, this`summary, this`answered, usedLanes
      ensures Model() == PerfRecorder.Complete(old(Model()), request, SpanOf(request, s, success, timestamp))
    {
      var duration := timestamp - request.start;
      counts := Completed(counts, success);
      ghost var before := summary;
      var entry := if request.name in summary then summary[request.name] else Summary(0, 0, 0, 0);
      entry := Summary(entry.completed + 1, entry.failed, entry.total + duration, Max(entry.longest, duration));
      if !success { entry := entry.(failed := entry.failed + 1); }
      summary := summary[request.name := entry];
      var span := Span(request.name, request.start, duration, request.lane, s, success);
      answered := answered + [span];
      assert summary == Tally(before, span);
      hide Tally, Completed;
      var retained := Append(span);
      if retained { usedLanes[request.lane] := true; }
    }

    method OnEvent(event: string, timestamp: int)
      requires timestamp == lastNS
      modifies this`counts, this`events
      ensures Model() == PerfRecorder.OnEvent(old(Model()), event)
    {
      counts := counts.(observedEvents := counts.observedEvents + 1);
      var _ := Append(Instant(EventName(event), timestamp));
    }

    ghost function Direction(stream: Stream): Channel
      reads this, lanes, usedLanes
    {
      Channel(stream, Model(), framingErrors, ticks)
    }

    /** A whole body of one direction. */
    method Complete(body: string, isClient: bool) returns (stream: Stream)
      requires Consistent(Model(), env.sha) && lanes != usedLanes
      modifies this`ticks, this`lastNS, this`counts, this`framingErrors, this`lastRequestSeq, this`pending, this`events,
               this`summary, this`history, this`answered, lanes, usedLanes
      ensures forall before :: Direction(stream) == Deliver(old(Direction(before)), env, isClient, body)
    {
      hide Consistent, PerfRecorder.OnRequest, PerfRecorder.OnResponse, PerfRecorder.OnEvent, DecodeMessage;
      var message := DecodeMessage(env, body);
      if message.None? {
        framingErrors := framingErrors + 1;
        return DISABLED;
      }
      ArriveOwned(Model(), env.sha, isClient, message.value, env.now(ticks));
      var timestamp := Timestamp();
      history := history + [Input(isClient, message.value, timestamp)];
      match message.value {
        case RequestMessage(s, command) =>
          if isClient { OnRequest(s, command, timestamp); }
          else { counts := counts.(ignoredMessages := counts.ignoredMessages + 1); }
        case ResponseMessage(s, command, success) =>
          if !isClient { OnResponse(s, command, success, timestamp); }
          else { counts := counts.(ignoredMessages := counts.ignoredMessages + 1); }
        case EventMessage(event) =>
          if !isClient { OnEvent(event, timestamp); }
          else { counts := counts.(ignoredMessages := counts.ignoredMessages + 1); }
      }
      return IDLE;
    }

    /** One byte of a header block; more is set when the block is complete and valid. */
    method TakeHeader(s: Stream, b: char, isClient: bool) returns (next: Stream, more: bool)
      requires Consistent(Model(), env.sha) && lanes != usedLanes && Formed(s) && !s.disabled && !s.readingBody
      modifies this`framingErrors
      ensures !more ==> Direction(next) == StepByte(old(Direction(s)), env, isClient, b)
      ensures more ==> framingErrors == old(framingErrors) && next.bodyLength >= 0
                       && next == Stream("", "", next.bodyLength, true, false)
                       && StepByte(old(Direction(s)), env, isClient, b)
                          == if next.bodyLength == 0 then Deliver(old(Direction(next)), env, isClient, "")
                             else old(Direction(next))
    {
      hide Consistent, EndsHeader, BlockLength, Deliver;
      var header := s.header + [b];
      if EndsHeader(header) {
        var length := ContentLength(header);
        if length.None? {
          framingErrors := framingErrors + 1;
          return DISABLED, false;
        }
        next, more := Stream("", "", length.value, true, false), true;
        DeliverIgnoresStream(Direction(s), Direction(next), env, isClient, "");
      } else if |header| == MAX_HEADER_LENGTH {
        framingErrors := framingErrors + 1;
        return DISABLED, false;
      } else {
        return s.(header := header), false;
      }
    }

    /** As much of a body as has arrived. */
    method TakeBody(s: Stream, chunk: string, isClient: bool) returns (next: Stream)
      requires Consistent(Model(), env.sha) && lanes != usedLanes
      requires s.readingBody && !s.disabled && |s.body| + |chunk| <= s.bodyLength
      modifies this`ticks, this`lastNS, this`counts, this`framingErrors, this`lastRequestSeq, this`pending, this`events,
               this`summary, this`history, this`answered, lanes, usedLanes
      ensures Direction(next) == if |s.body| + |chunk| < s.bodyLength then old(Direction(s.(body := s.body + chunk)))
                                 else Deliver(old(Direction(s)), env, isClient, s.body + chunk)
    {
      hide Consistent, Deliver;
      var body := s.body + chunk;
      if |body| != s.bodyLength {
        return s.(body := body);
      }
      next := Complete(body, isClient);
    }

    method Observe(direction: Stream, data: string, isClient: bool) returns (s: Stream)
      requires Consistent(Model(), env.sha) && lanes != usedLanes && Formed(direction)
      modifies this`ticks, this`lastNS, this`counts, this`framingErrors, this`lastRequestSeq, this`pending, this`events,
               this`summary, this`history, this`answered, lanes, usedLanes
      ensures Direction(s) == Feed(old(Direction(direction)), env, isClient, data)
    {
      hide Consistent, Deliver, StepByte, Feed;
      s := direction;
      var i := 0;
      ghost var start := Direction(direction);
      FeedNothing(start, env, isClient);
      while i < |data| && !s.disabled
        invariant 0 <= i <= |data|
        invariant Direction(s) == Feed(start, env, isClient, data[..i])
        invariant Formed(s)
      {
        ghost var before := i;
        if !s.readingBody {
          var more;
          s, more := TakeHeader(s, data[i], isClient);
          i := i + 1;
          FeedNext(start, env, isClient, data, before, i);
          FeedShapes(start, env, isClient, data[..i]);
          if !more { continue; }
        }
        var take := Min(|data| - i, s.bodyLength - |s.body|);
        BodyTaken(start, env, isClient, data, i, i + take, Direction(s));
        s := TakeBody(s, data[i..i + take], isClient);
        i := i + take;
        FeedShapes(start, env, isClient, data[..i]);
      }
      FeedSplit(start, env, isClient, data[..i], data[i..]);
      assert data[..i] + data[i..] == data;
      if s.disabled {
        FeedDisabled(Direction(s), env, isClient, data[i..]);
      } else {
        FeedNothing(Direction(s), env, isClient);
      }
    }

    method Write(data: string, isClient: bool) returns (n: nat)
      requires Valid()
      modifies this, lanes, usedLanes
      ensures Valid() && n == |data| && finished == old(finished) && frozen == old(frozen)
      ensures State() == if old(finished) then old(State()) else Written(old(State()), env, isClient, data)
    {
      hide Sound, Consistent, Feed;
      if !finished {
        SoundParts(State(), env);
        WriteKeepsSound(State(), env, isClient, data);
        if isClient {
          client := Observe(client, data, true);
        } else {
          server := Observe(server, data, false);
        }
      }
      return |data|;
    }

    /** Only the first call counts; the trace stays as it was handed out then. */
    method Finish(failed: bool) returns (t: Trace)
      requires Valid()
      modifies this
      ensures Valid() && finished && t == frozen
      ensures t == if old(finished) then old(frozen) else FinishedTrace(old(State()), env, failed)
      ensures old(finished) ==> State() == old(State())
    {
      hide Sound, FinishedTrace;
      if finished { return frozen; }
      t := Freeze(failed);
      frozen, finished := t, true;
      events, pending, summary := [], map[], map[];
      client, server := Cleared(client), Cleared(server);
    }

    /** The trace as it stands, after giving up on partial streams. */
    method Freeze(failed: bool) returns (t: Trace)
      requires usedLanes.Length == MAX_PENDING
      modifies this`ticks, this`lastNS, this`counts, this`client, this`server, this`framingErrors
      ensures t == FinishedTrace(old(State()), env, failed)
    {
      hide NamedLanes, IsComplete;
      var duration := Timestamp();
      CloseStreams();
      var complete := IsComplete(failed, framingErrors, counts, |pending|);
      var named := NameLanes();
      t := Trace(named, events, duration, counts, framingErrors, client.disabled, server.disabled, failed, |pending|,
                 complete, summary);
    }

    method CloseStreams()
      modifies this`client, this`server, this`framingErrors
      ensures client == Closed(old(client)) && server == Closed(old(server))
      ensures framingErrors - old(framingErrors)
           == Errors(client) - Errors(old(client)) + Errors(server) - Errors(old(server))
    {
      if !client.disabled && Partial(client) {
        client := DISABLED;
        framingErrors := framingErrors + 1;
      }
      if !server.disabled && Partial(server) {
        server := DISABLED;
        framingErrors := framingErrors + 1;
      }
    }

    method NameLanes() returns (named: seq<int>)
      ensures named == NamedLanes(usedLanes[..], usedLanes.Length)
    {
      named := [];
      for lane := 0 to usedLanes.Length
        invariant named == NamedLanes(usedLanes[..], lane)
      {
        if usedLanes[lane] { named := named + [lane]; }
      }
    }
  }

  method NewRecorder(maxEvents: int, env: Environment) returns (r: Option<Recorder>)
    ensures r.Some? <==> 1 <= maxEvents <= MAX_EVENTS
    ensures r.Some? ==> fresh(r.value) && r.value.Valid() && !r.value.finished
                        && r.value.State() == Recording(Fresh(maxEvents), 0, 0, IDLE, IDLE)
  {
    if maxEvents < 1 || maxEvents > MAX_EVENTS { return None; }
    var recorder := new Recorder(maxEvents, env);
    return Some(recorder);
  }

  function Cleared(s: Stream): Stream {
    s.(header := "", body := "", bodyLength := 0, readingBody := false)
  }

  lemma SoundParts(r: Recording, env: Environment)
    requires Sound(r, env)
    ensures Consistent(r.core, env.sha) && Formed(r.client) && Formed(r.server)
  {
  }

  /** What has arrived of a body after a header block or an earlier part of the body. */
  lemma BodyTaken(start: Channel, env: Environment, client: bool, data: string, i: nat, j: nat, reading: Channel)
    requires Consistent(start.core, env.sha) && Consistent(reading.core, env.sha) && i <= j <= |data|
    requires reading.stream.readingBody && !reading.stream.disabled
    requires var s := reading.stream;
             && |s.body| + (j - i) <= s.bodyLength
             && Feed(start, env, client, data[..i])
                == if |s.body| == s.bodyLength then Deliver(reading, env, client, s.body) else reading
    ensures var s := reading.stream;
            Feed(start, env, client, data[..j])
            == if |s.body| + (j - i) < s.bodyLength then reading.(stream := s.(body := s.body + data[i..j]))
            else Deliver(reading, env, client, s.body + data[i..j])
  {
    hide Consistent, Deliver, Feed;
    var s := reading.stream;
    if |s.body| == s.bodyLength {
      assert i == j && s.body + data[i..j] == s.body;
    } else {
      FeedSplit(start, env, client, data[..i], data[i..j]);
      assert data[..i] + data[i..j] == data[..j];
      FeedBody(reading, env, client, data[i..j]);
    }
  }

  lemma FeedNext(ch: Channel, env: Environment, client: bool, data: string, i: nat, j: nat)
    requires Consistent(ch.core, env.sha) && i < j == i + 1 <= |data|
    ensures Feed(ch, env, client, data[..j]) == StepByte(Feed(ch, env, client, data[..i]), env, client, data[i])
  {
    hide Consistent, StepByte;
    assert data[..j][..|data[..j]| - 1] == data[..i];
  }

  lemma ArriveOwned(c: Core, sha: string -> string, client: bool, message: Message, elapsed: int)
    requires Consistent(c, sha)
    ensures Owned(Arrive(c, client, message, elapsed)) && Owned(c)
  {
    assert Kept(c);
    hide Held, Timely, Marked, Balanced, Tallied, Shown, ToldOnce, Faithful;
  }
}
