/** How the recorder finds messages in a byte stream it only observes (internal/perf/stream.go),
    and how that relates to the frames the adapter writes and reads. */
module PerfStream {

  import opened Prelude
  import opened Decimal
  import opened FrameHeader
  import opened DapCodec
  import opened PerfRecorder
  import opened PerfCapture

  const MAX_SEQ := 0x7FFF_FFFF

  /** The envelope fields a JSON decoder finds; absent ones are empty or zero. */
  datatype Envelope = Envelope(
    seq_: int,
    kind: string,
    command: string,
    requestSeq: int,
    success: Option<bool>,
    event: string)

  /** What lies outside: the clock's readings, SHA-256 and the JSON decoder. */
  datatype Environment = Environment(
    now: nat -> int,
    sha: string -> string,
    unmarshal: string -> Option<Envelope>)

  datatype Stream = Stream(
    header: string,
    body: string,
    bodyLength: int,
    readingBody: bool,
    disabled: bool)

  const IDLE := Stream("", "", 0, false, false)
  const DISABLED := Stream("", "", 0, false, true)

  /** One direction at work on the recorder. */
  datatype Channel = Channel(stream: Stream, core: Core, framingErrors: int, ticks: nat)

  // ---------- Messages ----------

  predicate ValidSeq(s: int) {
    0 < s <= MAX_SEQ
  }

  function DecodeMessage(env: Environment, body: string): (r: Option<Message>)
    ensures r.Some? && r.value.RequestMessage? ==> ValidSeq(r.value.seq_) && r.value.command != ""
    ensures r.Some? && r.value.ResponseMessage? ==> ValidSeq(r.value.requestSeq) && r.value.command != ""
    ensures r.Some? && r.value.EventMessage? ==> r.value.event != ""
  {
    var parsed := env.unmarshal(body);
    if parsed.None? || !ValidSeq(parsed.value.seq_) then None
    else
      var e := parsed.value;
      if e.kind == "request" then
        if e.command == "" then None else Some(RequestMessage(e.seq_, e.command))
      else if e.kind == "response" then
        if e.command == "" || !ValidSeq(e.requestSeq) || e.success.None? then None
        else Some(ResponseMessage(e.requestSeq, e.command, e.success.value))
      else if e.kind == "event" then
        if e.event == "" then None else Some(EventMessage(e.event))
      else None
  }

  /** The envelope says exactly message m. */
  predicate Says(e: Envelope, m: Message) {
    && ValidSeq(e.seq_)
    && match m
       case RequestMessage(s, command) => e.kind == "request" && e.seq_ == s && e.command == command != ""
       case ResponseMessage(s, command, success) =>
         && e.kind == "response" && ValidSeq(s) && e.requestSeq == s && e.command == command != ""
         && e.success == Some(success)
       case EventMessage(event) => e.kind == "event" && e.event == event != ""
  }

  /** A body is a message if and only if it decodes to an envelope that says so. */
  lemma MessageExactly(env: Environment, body: string, m: Message)
    ensures DecodeMessage(env, body) == Some(m) <==> env.unmarshal(body).Some? && Says(env.unmarshal(body).value, m)
  {
    assert "request" != "response" && "response" != "event" && "request" != "event" by {
      assert |"request"| == 7 && |"response"| == 8 && |"event"| == 5;
    }
  }

  // ---------- Framing, one byte at a time ----------

  predicate EndsHeader(header: string) {
    |header| >= 4 && header[|header| - 4..] == HEADER_END
  }

  /** The length announced by a complete header block. */
  function BlockLength(header: string): Option<nat>
    requires EndsHeader(header)
  {
    var block := header[..|header| - 4];
    if |header| > MAX_HEADER_LENGTH || '\r' in block || '\n' in block then None else FieldLength(block)
  }

  function Disable(ch: Channel): Channel {
    ch.(stream := DISABLED, framingErrors := ch.framingErrors + 1)
  }

  /** A whole body has arrived. */
  ghost function Deliver(ch: Channel, env: Environment, client: bool, body: string): (d: Channel)
    requires Consistent(ch.core, env.sha)
    ensures Consistent(d.core, env.sha)
  {
    var message := DecodeMessage(env, body);
    if message.None? then Disable(ch)
    else
      HandleKeeps(ch.core, env.sha, client, message.value, env.now(ch.ticks));
      Channel(IDLE, Handle(ch.core, env.sha, client, message.value, env.now(ch.ticks)), ch.framingErrors, ch.ticks + 1)
  }

  /** The byte that completes a header block. */
  ghost function EndHeader(ch: Channel, env: Environment, client: bool, header: string): (d: Channel)
    requires Consistent(ch.core, env.sha) && EndsHeader(header)
    ensures Consistent(d.core, env.sha)
  {
    var length := BlockLength(header);
    if length.None? then Disable(ch)
    else if length.value == 0 then Deliver(ch, env, client, "")
    else ch.(stream := Stream("", "", length.value, true, false))
  }

  ghost function StepByte(ch: Channel, env: Environment, client: bool, b: char): (d: Channel)
    requires Consistent(ch.core, env.sha)
    ensures Consistent(d.core, env.sha)
  {
    var s := ch.stream;
    if s.disabled then ch
    else if s.readingBody then
      if |s.body| + 1 == s.bodyLength then Deliver(ch, env, client, s.body + [b])
      else ch.(stream := s.(body := s.body + [b]))
    else
      var header := s.header + [b];
      if EndsHeader(header) then EndHeader(ch, env, client, header)
      else if |header| == MAX_HEADER_LENGTH then Disable(ch)
      else ch.(stream := s.(header := header))
  }

  ghost function Feed(ch: Channel, env: Environment, client: bool, data: string): (d: Channel)
    requires Consistent(ch.core, env.sha)
    ensures Consistent(d.core, env.sha)
  {
    if data == "" then ch
    else StepByte(Feed(ch, env, client, data[..|data| - 1]), env, client, data[|data| - 1])
  }

  // ---------- Chunk boundaries do not matter ----------

  lemma {:induction false} FeedSplit(ch: Channel, env: Environment, client: bool, a: string, b: string)
    requires Consistent(ch.core, env.sha)
    ensures Feed(ch, env, client, a + b) == Feed(Feed(ch, env, client, a), env, client, b)
  {
    hide StepByte, Consistent;
    if b == "" {
      assert a + b == a;
    } else {
      var front := b[..|b| - 1];
      FeedSplit(ch, env, client, a, front);
      assert (a + b)[..|a + b| - 1] == a + front;
    }
  }

  function Concat(chunks: seq<string>): string {
    if chunks == [] then "" else Concat(chunks[..|chunks| - 1]) + chunks[|chunks| - 1]
  }

  ghost function FeedChunks(ch: Channel, env: Environment, client: bool, chunks: seq<string>): (d: Channel)
    requires Consistent(ch.core, env.sha)
    ensures Consistent(d.core, env.sha)
  {
    if chunks == [] then ch
    else Feed(FeedChunks(ch, env, client, chunks[..|chunks| - 1]), env, client, chunks[|chunks| - 1])
  }

  /** However a stream is cut into writes, the recorder ends in the same state. */
  lemma {:induction false} AnyChunks(ch: Channel, env: Environment, client: bool, chunks: seq<string>)
    requires Consistent(ch.core, env.sha)
    ensures FeedChunks(ch, env, client, chunks) == Feed(ch, env, client, Concat(chunks))
  {
    hide Consistent, Feed;
    if chunks == [] {
      assert Feed(ch, env, client, "") == ch by { FeedNothing(ch, env, client); }
    } else {
      var front := chunks[..|chunks| - 1];
      AnyChunks(ch, env, client, front);
      FeedSplit(ch, env, client, Concat(front), chunks[|chunks| - 1]);
    }
  }

  lemma FeedNothing(ch: Channel, env: Environment, client: bool)
    requires Consistent(ch.core, env.sha)
    ensures Feed(ch, env, client, "") == ch
  {
    hide Consistent;
  }

  lemma {:induction false} FeedDisabled(ch: Channel, env: Environment, client: bool, data: string)
    requires Consistent(ch.core, env.sha) && ch.stream.disabled
    ensures Feed(ch, env, client, data) == ch
  {
    hide Consistent, Deliver, EndHeader;
    if data != "" { FeedDisabled(ch, env, client, data[..|data| - 1]); }
  }

  /** Part of a body, or its last part. */
  lemma {:induction false} FeedBody(ch: Channel, env: Environment, client: bool, data: string)
    requires Consistent(ch.core, env.sha)
    requires ch.stream.readingBody && !ch.stream.disabled && |ch.stream.body| + |data| <= ch.stream.bodyLength
    requires |ch.stream.body| < ch.stream.bodyLength
    ensures Feed(ch, env, client, data)
         == if |ch.stream.body| + |data| < ch.stream.bodyLength
            then ch.(stream := ch.stream.(body := ch.stream.body + data))
            else Deliver(ch, env, client, ch.stream.body + data)
  {
    hide Consistent, Deliver, EndHeader;
    if data == "" {
      assert ch.stream.body + data == ch.stream.body;
    } else {
      var front := data[..|data| - 1];
      FeedBody(ch, env, client, front);
      assert ch.stream.body + data == ch.stream.body + front + [data[|data| - 1]];
      DeliverIgnoresStream(ch, ch.(stream := ch.stream.(body := ch.stream.body + front)), env, client,
                           ch.stream.body + data);
    }
  }

  lemma DeliverIgnoresStream(ch: Channel, other: Channel, env: Environment, client: bool, body: string)
    requires Consistent(ch.core, env.sha) && other == ch.(stream := other.stream)
    ensures Deliver(ch, env, client, body) == Deliver(other, env, client, body)
  {
    hide Consistent, Handle;
  }

  // ---------- The observer beside the decoder and the encoder ----------

  predicate Idle(ch: Channel) {
    ch.stream == IDLE
  }

  lemma {:induction false} FeedHeader(ch: Channel, env: Environment, client: bool, data: string)
    requires Consistent(ch.core, env.sha) && Idle(ch) && |data| < MAX_HEADER_LENGTH
    requires forall k :: 0 <= k <= |data| ==> !EndsHeader(data[..k])
    ensures Feed(ch, env, client, data) == ch.(stream := IDLE.(header := data))
  {
    hide Consistent, Deliver, EndHeader, EndsHeader;
    if data != "" {
      var front := data[..|data| - 1];
      forall k | 0 <= k <= |front| ensures !EndsHeader(front[..k]) {
        assert front[..k] == data[..k];
      }
      FeedHeader(ch, env, client, front);
      assert front + [data[|data| - 1]] == data == data[..|data|];
    }
  }

  lemma NoEarlyEnd(line: string, k: nat)
    requires '\n' !in line && k < |line| + 4
    ensures !EndsHeader((line + HEADER_END)[..k])
  {
    var h := line + HEADER_END;
    assert forall i :: 0 <= i < |line| ==> h[i] == line[i];
    if k >= 4 {
      var p := h[..k];
      assert p[k - 4..][1] == h[k - 3] && p[k - 4..][3] == h[k - 1];
    }
  }

  lemma LastHeaderByte(ch: Channel, env: Environment, client: bool, front: string, b: char)
    requires Consistent(ch.core, env.sha) && Idle(ch) && EndsHeader(front + [b])
    ensures StepByte(ch.(stream := IDLE.(header := front)), env, client, b) == EndHeader(ch, env, client, front + [b])
  {
    hide Consistent, Deliver, EndsHeader, BlockLength;
    DeliverIgnoresStream(ch, ch.(stream := IDLE.(header := front)), env, client, "");
  }

  lemma EndsItself(line: string)
    ensures EndsHeader(line + HEADER_END)
  {
    var header := line + HEADER_END;
    assert header[|header| - 4..] == HEADER_END;
  }

  /** A header line and a blank one are taken as one block. */
  lemma HeaderFed(ch: Channel, env: Environment, client: bool, line: string)
    requires Consistent(ch.core, env.sha) && Idle(ch) && '\n' !in line && |line| + 4 <= MAX_HEADER_LENGTH
    ensures EndsHeader(line + HEADER_END)
    ensures Feed(ch, env, client, line + HEADER_END) == EndHeader(ch, env, client, line + HEADER_END)
  {
    hide Consistent, EndHeader, StepByte, EndsHeader, BlockLength;
    var header := line + HEADER_END;
    EndsItself(line);
    var front := header[..|header| - 1];
    forall k | 0 <= k <= |front| ensures !EndsHeader(front[..k]) {
      NoEarlyEnd(line, k);
      assert front[..k] == header[..k];
    }
    FeedHeader(ch, env, client, front);
    assert front + [header[|header| - 1]] == header;
    LastHeaderByte(ch, env, client, front, header[|header| - 1]);
  }

  lemma BlockOf(line: string)
    requires '\n' !in line && |line| + 4 <= MAX_HEADER_LENGTH && EndsHeader(line + HEADER_END)
    ensures BlockLength(line + HEADER_END) == if '\r' in line then None else FieldLength(line)
  {
    hide FieldLength;
    assert (line + HEADER_END)[..|line + HEADER_END| - 4] == line;
  }

  /** Whatever frame the decoder reads, the observer delivers its body or gives up on the
      stream: it delivers exactly when the header line holds no carriage return. */
  lemma FrameObserved(ch: Channel, env: Environment, client: bool, line: string, body: string)
    requires Consistent(ch.core, env.sha) && Idle(ch) && Announces(line, |body|)
    ensures Feed(ch, env, client, line + HEADER_END + body)
         == if '\r' in line then Disable(ch) else Deliver(ch, env, client, body)
  {
    hide Consistent, Deliver, FieldLength, Feed, BlockLength;
    var header := line + HEADER_END;
    HeaderFed(ch, env, client, line);
    BlockOf(line);
    FeedSplit(ch, env, client, header, body);
    var reading := Feed(ch, env, client, header);
    if '\r' in line {
      FeedDisabled(reading, env, client, body);
    } else if body == "" {
      FeedNothing(reading, env, client);
    } else {
      FeedBody(reading, env, client, body);
      assert "" + body == body;
      DeliverIgnoresStream(ch, reading, env, client, body);
    }
  }

  /** The same, told from the decoder's side: for every input it decodes, the observer that
      sees those bytes delivers the same body, unless a carriage return stands in the line. */
  lemma ObserverFollowsDecoder(ch: Channel, env: Environment, client: bool, input: string) returns (line: string)
    requires Consistent(ch.core, env.sha) && Idle(ch) && DecodeFrame(input).Ok?
    ensures var (body, rest) := DecodeFrame(input).value;
            && Announces(line, |body|) && input == line + HEADER_END + body + rest
            && var next := if '\r' in line then Disable(ch) else Deliver(ch, env, client, body);
            Feed(ch, env, client, input) == Feed(next, env, client, rest)
  {
    var (body, rest) := DecodeFrame(input).value;
    hide Consistent, Deliver, FieldLength, Feed, DecodeFrame;
    DecodesExactly(input, body, rest);
    line :| Announces(line, |body|) && input == line + HEADER_END + body + rest;
    FrameObserved(ch, env, client, line, body);
    FeedSplit(ch, env, client, line + HEADER_END + body, rest);
  }

  /** A header block the observer accepts is one the decoder accepts, with the same length. */
  lemma DecoderFollowsObserver(header: string, rest: string)
    requires EndsHeader(header) && BlockLength(header).Some?
    ensures Headers(header + rest, 0, None) == Ok((BlockLength(header).value, rest))
  {
    var block := header[..|header| - 4];
    assert header == block + HEADER_END;
    assert block != "";
    hide FieldLength, Headers;
    HeadersRead(block, rest);
  }

  /** The decoder's leniency: it trims a carriage return that the observer refuses. */
  lemma ReturnTolerated(n: nat)
    requires n <= MAX_CONTENT_LENGTH
    ensures Headers(FieldFor(n) + "\r" + HEADER_END, 0, None) == Ok((n, ""))
    ensures EndsHeader(FieldFor(n) + "\r" + HEADER_END) && BlockLength(FieldFor(n) + "\r" + HEADER_END).None?
  {
    var line := FieldFor(n) + "\r";
    ReturnTrimmed(n);
    assert line + HEADER_END + "" == line + HEADER_END;
    assert (line + HEADER_END)[|line + HEADER_END| - 4..] == HEADER_END;
    hide FieldLength, Headers, FieldFor;
    HeadersRead(line, "");
    BlockOf(line);
  }

  lemma ReturnTrimmed(n: nat)
    requires n <= MAX_CONTENT_LENGTH
    ensures FieldLength(FieldFor(n) + "\r") == Some(n) && '\n' !in FieldFor(n) + "\r" && |FieldFor(n) + "\r"| <= 24
  {
    hide Find, Value, Pow10, Format, TrimSpace, IsFieldName;
    FieldRoundTrip(n);
    FormatRoundTrip(n);
    ParseFormat(n);
    NamesField();
    var name, digits := "Content-Length", Format(n);
    var value := " " + digits + "\r";
    SpaceAndReturnTrimmed(digits);
    FindAfter(name, ':', value);
    var line := name + [':'] + value;
    assert FieldFor(n) + "\r" == line;
    assert line[..|name|] == name && line[|name| + 1..] == value;
  }

  lemma SpaceAndReturnTrimmed(digits: string)
    requires digits != "" && AllDigits(digits)
    ensures TrimSpace(" " + digits + "\r") == digits
  {
    var right := digits + "\r";
    assert (" " + digits + "\r")[1..] == right && (" " + digits + "\r")[..1] == " ";
    assert IsSpace(" ") && IsSpace("\r");
    assert right[|right| - 1..] == "\r" && right[..|right| - 1] == digits;
    DigitsUntrimmed(digits);
    assert TrimLeft(right) == right by {
      DigitsAreNotSpace(right[..1]);
      DigitsAreNotSpace(right[..2]);
      if |right| >= 3 { DigitsAreNotSpace(right[..3]); }
    }
    hide IsSpace;
  }

  // ---------- What the adapter writes is what the recorder sees ----------

  /** The bodies in turn, until one is not a message. */
  ghost function DeliverAll(ch: Channel, env: Environment, client: bool, bodies: seq<string>): (d: Channel)
    requires Consistent(ch.core, env.sha)
    ensures Consistent(d.core, env.sha)
    decreases |bodies|
  {
    if bodies == [] || ch.stream.disabled then ch
    else DeliverAll(Deliver(ch, env, client, bodies[0]), env, client, bodies[1..])
  }

  /** Observing encoded frames, in whatever chunks, delivers exactly the bodies, in order. */
  lemma {:induction false} FramesObserved(ch: Channel, env: Environment, client: bool, bodies: seq<string>)
    requires Consistent(ch.core, env.sha) && (Idle(ch) || ch.stream.disabled) && Encodable(bodies)
    ensures Feed(ch, env, client, Frames(bodies)) == DeliverAll(ch, env, client, bodies)
    decreases |bodies|
  {
    if ch.stream.disabled {
      FeedDisabled(ch, env, client, Frames(bodies));
    } else if bodies == [] {
      FeedNothing(ch, env, client);
    } else {
      var body := bodies[0];
      var line := FieldFor(|body|);
      FieldRoundTrip(|body|);
      FieldNotEmpty(|body|);
      DeliverEnds(ch, env, client, body);
      FramesObserved(Deliver(ch, env, client, body), env, client, bodies[1..]);
      hide Consistent, Deliver, FieldLength, Feed, FieldFor;
      FrameObserved(ch, env, client, line, body);
      assert Frame(body) == line + HEADER_END + body;
      FeedSplit(ch, env, client, Frame(body), Frames(bodies[1..]));
    }
  }

  lemma DeliverEnds(ch: Channel, env: Environment, client: bool, body: string)
    requires Consistent(ch.core, env.sha)
    ensures var d := Deliver(ch, env, client, body); Idle(d) || d.stream.disabled
  {
    hide Consistent, Handle;
  }
}
