/** Two byte streams observed by one recorder, in any interleaving and cut into any writes: what it
    records of one direction is what a recorder would that saw only that direction. */
module PerfInterleaving {

  import opened Prelude
  import opened DapCodec
  import opened PerfRecorder
  import opened PerfCapture
  import opened PerfStream
  import opened PerfRecording

  /** The messages recorded of one direction. */
  function Of(h: seq<Input>, client: bool): seq<Message> {
    if h == [] then []
    else
      var last := h[|h| - 1];
      Of(h[..|h| - 1], client) + if last.client == client then [last.message] else []
  }

  lemma OfAppended(h: seq<Input>, x: Input, client: bool)
    ensures Of(h + [x], client) == Of(h, client) + if x.client == client then [x.message] else []
  {
    assert (h + [x])[..|h|] == h;
  }

  lemma {:induction false} OfBoth(h: seq<Input>)
    ensures |h| == |Of(h, true)| + |Of(h, false)|
  {
    if h != [] { OfBoth(h[..|h| - 1]); }
  }

  // ---------- One direction ----------

  /** Both channels are at the same point of the direction, whatever else their recorders know. */
  ghost predicate Alike(a: Channel, b: Channel, client: bool) {
    a.stream == b.stream && Of(a.core.history, client) == Of(b.core.history, client)
  }

  /** What a body adds to the recorder. */
  lemma DeliverTells(ch: Channel, env: Environment, client: bool, body: string)
    requires Consistent(ch.core, env.sha)
    ensures var d, m := Deliver(ch, env, client, body), DecodeMessage(env, body);
            if m.None? then d == Disable(ch)
            else
              var time := Max(ch.core.lastNS, env.now(ch.ticks));
              && d.stream == IDLE && d.ticks == ch.ticks + 1 && d.core.lastNS == time
              && d.core.history == ch.core.history + [Input(client, m.value, time)]
              && d.core.counts.clockRegressions
                 == ch.core.counts.clockRegressions + if env.now(ch.ticks) < ch.core.lastNS then 1 else 0
  {
    hide Handle, DecodeMessage, Consistent;
    ConsistentIs(ch.core, env.sha);
    var m := DecodeMessage(env, body);
    if m.Some? { HandleTime(ch.core, env.sha, client, m.value, env.now(ch.ticks)); }
  }

  lemma DeliverAlike(a: Channel, b: Channel, env: Environment, client: bool, body: string)
    requires Consistent(a.core, env.sha) && Consistent(b.core, env.sha) && Alike(a, b, client)
    ensures var d := Deliver(a, env, client, body);
            && Alike(d, Deliver(b, env, client, body), client)
            && Of(d.core.history, !client) == Of(a.core.history, !client)
  {
    hide Deliver, Of, DecodeMessage, Consistent;
    DeliverTells(a, env, client, body);
    DeliverTells(b, env, client, body);
    var m := DecodeMessage(env, body);
    if m.Some? {
      var x := Input(client, m.value, Max(a.core.lastNS, env.now(a.ticks)));
      OfAppended(a.core.history, x, client);
      OfAppended(a.core.history, x, !client);
      OfAppended(b.core.history, Input(client, m.value, Max(b.core.lastNS, env.now(b.ticks))), client);
    }
  }

  lemma StepAlike(a: Channel, b: Channel, env: Environment, client: bool, c: char)
    requires Consistent(a.core, env.sha) && Consistent(b.core, env.sha) && Alike(a, b, client)
    ensures var d := StepByte(a, env, client, c);
            && Alike(d, StepByte(b, env, client, c), client)
            && Of(d.core.history, !client) == Of(a.core.history, !client)
  {
    hide Deliver, Of, Consistent, EndsHeader, BlockLength;
    DeliverAlike(a, b, env, client, "");
    DeliverAlike(a, b, env, client, a.stream.body + [c]);
  }

  lemma {:induction false} FeedAlike(a: Channel, b: Channel, env: Environment, client: bool, data: string)
    requires Consistent(a.core, env.sha) && Consistent(b.core, env.sha) && Alike(a, b, client)
    ensures var d := Feed(a, env, client, data);
            && Alike(d, Feed(b, env, client, data), client)
            && Of(d.core.history, !client) == Of(a.core.history, !client)
  {
    hide StepByte, Of, Consistent;
    if data != "" {
      var front := data[..|data| - 1];
      FeedAlike(a, b, env, client, front);
      StepAlike(Feed(a, env, client, front), Feed(b, env, client, front), env, client, data[|data| - 1]);
    }
  }

  // ---------- Both directions ----------

  datatype Chunk = Chunk(client: bool, data: string)

  /** All that was sent in one direction. */
  function Sent(chunks: seq<Chunk>, client: bool): string {
    if chunks == [] then ""
    else
      var last := chunks[|chunks| - 1];
      Sent(chunks[..|chunks| - 1], client) + if last.client == client then last.data else ""
  }

  /** The recording after writes in both directions. */
  ghost function Observed(r: Recording, env: Environment, chunks: seq<Chunk>): (o: Recording)
    requires Sound(r, env)
    ensures Sound(o, env)
  {
    if chunks == [] then r
    else
      var before, last := Observed(r, env, chunks[..|chunks| - 1]), chunks[|chunks| - 1];
      WriteKeepsSound(before, env, last.client, last.data);
      Written(before, env, last.client, last.data)
  }

  ghost function Begin(maxEvents: nat, env: Environment): (r: Recording)
    ensures Sound(r, env)
  {
    FreshIsConsistent(maxEvents, env.sha);
    Recording(Fresh(maxEvents), 0, 0, IDLE, IDLE)
  }

  /** A recorder that is to see one direction only. */
  ghost function Lone(maxEvents: nat, env: Environment): (ch: Channel)
    ensures Consistent(ch.core, env.sha)
  {
    FreshIsConsistent(maxEvents, env.sha);
    Channel(IDLE, Fresh(maxEvents), 0, 0)
  }

  /** The recorder's side of one direction. */
  function Side(r: Recording, client: bool): Channel {
    Channel(if client then r.client else r.server, r.core, r.framingErrors, r.ticks)
  }

  lemma WriteSides(r: Recording, env: Environment, client: bool, data: string)
    requires Consistent(r.core, env.sha)
    ensures var w := Written(r, env, client, data);
            && Side(w, client) == Feed(Side(r, client), env, client, data)
            && Side(w, !client).stream == Side(r, !client).stream
  {
    hide Feed, Consistent;
  }

  /** However the two directions interleave, neither affects what is recorded of the other. */
  lemma {:induction false} ObservedAlone(maxEvents: nat, env: Environment, chunks: seq<Chunk>, client: bool)
    ensures var o := Observed(Begin(maxEvents, env), env, chunks);
            Alike(Side(o, client), Feed(Lone(maxEvents, env), env, client, Sent(chunks, client)), client)
  {
    hide Feed, Written, Of, Sound, Consistent;
    FeedNothing(Lone(maxEvents, env), env, client);
    if chunks != [] {
      var front, last := chunks[..|chunks| - 1], chunks[|chunks| - 1];
      var before, lone := Observed(Begin(maxEvents, env), env, front),
                          Feed(Lone(maxEvents, env), env, client, Sent(front, client));
      ObservedAlone(maxEvents, env, front, client);
      SoundIs(before, env);
      WriteSides(before, env, last.client, last.data);
      if last.client == client {
        FeedAlike(Side(before, client), lone, env, client, last.data);
        FeedSplit(Lone(maxEvents, env), env, client, Sent(front, client), last.data);
      } else {
        FeedAlike(Side(before, last.client), Side(before, last.client), env, last.client, last.data);
        assert Sent(front, client) + "" == Sent(front, client);
      }
    }
  }

  lemma SoundIs(r: Recording, env: Environment)
    requires Sound(r, env)
    ensures Consistent(r.core, env.sha) && r.framingErrors == Errors(r.client) + Errors(r.server)
  {
    hide Consistent, Formed;
  }

  // ---------- Two conversations ----------

  /** The bodies are exactly these messages. */
  predicate AreMessages(env: Environment, bodies: seq<string>, ms: seq<Message>) {
    && |bodies| == |ms|
    && forall i :: 0 <= i < |bodies| ==> env.unmarshal(bodies[i]).Some? && Says(env.unmarshal(bodies[i]).value, ms[i])
  }

  lemma {:induction false} DeliveredMessages(ch: Channel, env: Environment, client: bool, bodies: seq<string>,
                                             ms: seq<Message>)
    requires Consistent(ch.core, env.sha) && Idle(ch) && AreMessages(env, bodies, ms)
    ensures var d := DeliverAll(ch, env, client, bodies);
            Idle(d) && Of(d.core.history, client) == Of(ch.core.history, client) + ms
    decreases |bodies|
  {
    hide Deliver, Of, Consistent, DecodeMessage, Says;
    if bodies != [] {
      var d := Deliver(ch, env, client, bodies[0]);
      MessageExactly(env, bodies[0], ms[0]);
      DeliverTells(ch, env, client, bodies[0]);
      OfAppended(ch.core.history, Input(client, ms[0], d.core.lastNS), client);
      DeliveredMessages(d, env, client, bodies[1..], ms[1..]);
      assert [ms[0]] + ms[1..] == ms;
    }
  }

  lemma DirectionObserved(maxEvents: nat, env: Environment, chunks: seq<Chunk>, client: bool, bodies: seq<string>,
                          ms: seq<Message>)
    requires Sent(chunks, client) == Frames(bodies) && Encodable(bodies) && AreMessages(env, bodies, ms)
    ensures var side := Side(Observed(Begin(maxEvents, env), env, chunks), client);
            side.stream == IDLE && Of(side.core.history, client) == ms
  {
    hide Deliver, DeliverAll, Feed, Frames, Encodable, Consistent, AreMessages;
    var lone := Lone(maxEvents, env);
    ObservedAlone(maxEvents, env, chunks, client);
    FramesObserved(lone, env, client, bodies);
    DeliveredMessages(lone, env, client, bodies, ms);
    assert [] + ms == ms;
  }

  /** If each direction carries frames of messages, then in whatever writes they come, and however the
      directions interleave, the recorder has seen exactly those messages, each direction in its order,
      and finds nothing to complain about in the framing. */
  lemma ConversationObserved(maxEvents: nat, env: Environment, chunks: seq<Chunk>, proxyFailed: bool,
                             requests: seq<string>, replies: seq<string>, asked: seq<Message>, told: seq<Message>)
    requires Sent(chunks, true) == Frames(requests) && Encodable(requests) && AreMessages(env, requests, asked)
    requires Sent(chunks, false) == Frames(replies) && Encodable(replies) && AreMessages(env, replies, told)
    ensures var o := Observed(Begin(maxEvents, env), env, chunks);
            && Of(o.core.history, true) == asked && Of(o.core.history, false) == told
            && |o.core.history| == |asked| + |told|
            && var t := FinishedTrace(o, env, proxyFailed);
            t.framingErrors == 0 && !t.clientDisabled && !t.serverDisabled
  {
    hide Sound, Of, Sent, Frames, Encodable, AreMessages, Observed, NamedLanes;
    var o := Observed(Begin(maxEvents, env), env, chunks);
    DirectionObserved(maxEvents, env, chunks, true, requests, asked);
    DirectionObserved(maxEvents, env, chunks, false, replies, told);
    OfBoth(o.core.history);
    SoundIs(o, env);
  }

  // ---------- Times ----------

  /** The latest of the first n clock readings, and no earlier than the start. */
  function Latest(env: Environment, n: nat): int {
    if n == 0 then 0 else Max(Latest(env, n - 1), env.now(n - 1))
  }

  /** How many of the first n readings were behind an earlier one. */
  function Setbacks(env: Environment, n: nat): int {
    if n == 0 then 0 else Setbacks(env, n - 1) + if env.now(n - 1) < Latest(env, n - 1) then 1 else 0
  }

  /** Every message read the clock once, and is timed by the latest reading so far. */
  ghost predicate Clocked(ch: Channel, env: Environment) {
    var h := ch.core.history;
    && ch.ticks == |h| && ch.core.lastNS == Latest(env, |h|)
    && ch.core.counts.clockRegressions == Setbacks(env, |h|)
    && forall i: nat :: i < |h| ==> h[i].time == Latest(env, i + 1)
  }

  lemma DeliverClocked(ch: Channel, env: Environment, client: bool, body: string)
    requires Consistent(ch.core, env.sha) && Clocked(ch, env)
    ensures Clocked(Deliver(ch, env, client, body), env)
  {
    hide Deliver, DecodeMessage, Consistent;
    DeliverTells(ch, env, client, body);
  }

  lemma StepClocked(ch: Channel, env: Environment, client: bool, c: char)
    requires Consistent(ch.core, env.sha) && Clocked(ch, env)
    ensures Clocked(StepByte(ch, env, client, c), env)
  {
    hide Deliver, Latest, Setbacks, Consistent, EndsHeader, BlockLength;
    DeliverClocked(ch, env, client, "");
    DeliverClocked(ch, env, client, ch.stream.body + [c]);
  }

  lemma {:induction false} FeedClocked(ch: Channel, env: Environment, client: bool, data: string)
    requires Consistent(ch.core, env.sha) && Clocked(ch, env)
    ensures Clocked(Feed(ch, env, client, data), env)
  {
    hide StepByte, Clocked, Consistent;
    if data != "" {
      FeedClocked(ch, env, client, data[..|data| - 1]);
      StepClocked(Feed(ch, env, client, data[..|data| - 1]), env, client, data[|data| - 1]);
    }
  }

  /** In every recording: the n-th message is timed by the latest of the first n readings of the clock. */
  lemma {:induction false} ObservedClocked(maxEvents: nat, env: Environment, chunks: seq<Chunk>)
    ensures Clocked(Side(Observed(Begin(maxEvents, env), env, chunks), true), env)
  {
    hide Feed, Written, Sound, Consistent, Latest, Setbacks;
    BeginClocked(maxEvents, env);
    if chunks != [] {
      var front, last := chunks[..|chunks| - 1], chunks[|chunks| - 1];
      var before := Observed(Begin(maxEvents, env), env, front);
      ObservedClocked(maxEvents, env, front);
      SoundIs(before, env);
      WriteSides(before, env, last.client, last.data);
      FeedClocked(Side(before, last.client), env, last.client, last.data);
    }
  }

  lemma BeginClocked(maxEvents: nat, env: Environment)
    ensures Clocked(Side(Begin(maxEvents, env), true), env)
  {
    hide Sound, Consistent;
  }

  /** The trace lasts until the latest reading of all, the one at its end included. */
  lemma DurationExactly(maxEvents: nat, env: Environment, chunks: seq<Chunk>, proxyFailed: bool)
    ensures var o := Observed(Begin(maxEvents, env), env, chunks);
            var t, n := FinishedTrace(o, env, proxyFailed), |o.core.history|;
            t.duration == Latest(env, n + 1) && t.counts.clockRegressions == Setbacks(env, n + 1)
  {
    hide Observed, Begin, Sound, NamedLanes;
    ObservedClocked(maxEvents, env, chunks);
  }
}
