/** The helper session object (bridge/timemachine_helper.py): the fields that each call to the
    native side, each notification and each request changes. */
module HelperWorker {

  import opened Prelude
  import opened HelperSession
  import opened HelperRuns

  class Helper {
    const env: Environment
    const limit: int
    var isOpen: bool
    var terminal: bool
    var faulted: bool
    var generation: int
    var traceState: TraceState
    var info: seq<byte>
    var infoSize: int
    var count: int
    var lastCount: Option<int>
    var pending: Notification
    var calls: nat
    ghost var log: seq<Refreshed>
    ghost var reported: int

    ghost function Model(): Session
      reads this
    {
      Session(limit, isOpen, terminal, faulted, generation, traceState, info, infoSize, count, lastCount,
              pending, calls, log,
              reported)
    }

    ghost predicate Valid()
      reads this
    {
      HelperRuns.Inv(Model())
    }

    constructor (limit: int, env: Environment)
      requires 1 <= limit <= 4096
      ensures Valid() && Model() == Fresh(limit) && this.env == env
    {
      this.limit := limit;
      this.env := env;
      isOpen, terminal, faulted, generation, traceState := false, false, false, 1, UnknownTrace;
      info, infoSize, count, lastCount := [], 0, 0, None;
      pending, calls, log, reported := NOTHING, 0, [], 1;
      new;
      HelperRuns.RunKeeps(limit, env, []);
    }

    /** Any native call; a call that raises faults the session. */
    method Call() returns (n: nat, ok: bool)
      modifies this`calls, this`faulted
      ensures n == old(calls) && Model() == HelperSession.Call(old(Model()), env) && ok == env.ok(n)
    {
      n := calls;
      ok := env.ok(n);
      calls := calls + 1;
      if !ok { faulted := true; }
    }

    method Advance()
      modifies this`faulted, this`generation, this`pending
      ensures Model() == HelperSession.Advance(old(Model()))
    {
      if generation == MAX_UINT64 {
        faulted := true;
        return;
      }
      generation := generation + 1;
      pending := pending.(invalidated := true);
    }

    /** The loop over the drained events. */
    method TakeEvents(all: seq<Notice>, initially: bool) returns (invalidate: bool)
      modifies this`traceState, this`pending
      ensures var c := AbsorbAll(Collecting(old(traceState), old(pending).events, old(pending).dropped, initially),
                                 limit, all);
              && traceState == c.state && pending == old(pending).(events := c.kept, dropped := c.dropped)
              && invalidate == c.invalidate
    {
      invalidate := initially;
      ghost var start := Collecting(traceState, pending.events, pending.dropped, initially);
      for i := 0 to |all|
        invariant Collecting(traceState, pending.events, pending.dropped, invalidate)
               == AbsorbAll(start, limit, all[..i])
        invariant pending == old(pending).(events := pending.events, dropped := pending.dropped)
      {
        assert all[..i + 1][..i] == all[..i];
        var event := all[i];
        if event == TraceStart {
          traceState := RunningTrace;
          invalidate := true;
        } else if event == TraceStop {
          traceState := StoppedTrace;
        } else if event == DataClear || event == PacketCountRegressed || event == DecoderReplacement {
          traceState := UnknownTrace;
          invalidate := true;
        }
        if |pending.events| == limit {
          pending := pending.(dropped := Min(MAX_UINT64, pending.dropped + 1));
          invalidate := true;
          traceState := UnknownTrace;
        } else {
          pending := pending.(events := pending.events + [event]);
        }
      }
      assert all[..|all|] == all;
    }

    static method ListEvents(n: Notification, regressed: bool, changed: bool) returns (all: seq<Notice>)
      ensures all == AllEvents(n, regressed, changed)
    {
      all := n.events;
      if regressed && PacketCountRegressed !in all { all := all + [PacketCountRegressed]; }
      if changed && DecoderReplacement !in all { all := all + [DecoderReplacement]; }
    }

    method TakeNotification(n: Notification, regressed: bool, changed: bool) returns (invalidate: bool)
      modifies this`traceState, this`pending
      ensures (Model(), invalidate) == Collected(old(Model()), n, regressed, changed)
    {
      hide AbsorbAll, AllEvents;
      var all := ListEvents(n, regressed, changed);
      invalidate := TakeEvents(all, n.invalidated || regressed || changed);
      var dropped := Min(MAX_UINT64, pending.dropped + n.dropped);
      var ignored := Min(MAX_UINT64, pending.ignored + n.ignored);
      pending := pending.(dropped := dropped, ignored := ignored, failed := pending.failed || n.failed);
      if n.dropped != 0 || n.ignored != 0 || n.failed {
        invalidate := true;
        traceState := UnknownTrace;
      }
    }

    method Collect(n: Notification, regressed: bool, changed: bool)
      modifies this`faulted, this`generation, this`traceState, this`pending
      ensures Model() == HelperSession.Collect(old(Model()), n, regressed, changed)
    {
      hide ValidNotification, Collected, HelperSession.Advance;
      if !ValidNotification(n) {
        faulted := true;
        return;
      }
      var invalidate := TakeNotification(n, regressed, changed);
      if invalidate { Advance(); }
    }

    /** The native side is polled and asked for its info and packet count. */
    method Look() returns (r: Option<(seq<byte>, int)>)
      requires isOpen && !faulted
      modifies this`calls, this`faulted
      ensures r.None? ==> Model() == HelperSession.Refresh(old(Model()), env)
      ensures r.Some? ==> Model() == old(Model()).(calls := old(calls) + 3)
      ensures r.Some? ==> r.value == (env.info(old(calls) + 1), env.count(old(calls) + 2))
      ensures r.Some? ==> env.ok(old(calls)) && env.ok(old(calls) + 1) && env.ok(old(calls) + 2)
                          && |r.value.0| == infoSize && 0 <= r.value.1 < MAX_UINT64
    {
      hide DrainInto;
      var _, ok := Call();
      if !ok { return None; }
      var n, infoOk := Call();
      if !infoOk { return None; }
      var next := env.info(n);
      if |next| != infoSize {
        faulted := true;
        return None;
      }
      var m, countOk := Call();
      if !countOk { return None; }
      var packets := env.count(m);
      if !(0 <= packets < MAX_UINT64) {
        faulted := true;
        return None;
      }
      return Some((next, packets));
    }

    method Refresh()
      modifies this`calls, this`faulted, this`lastCount, this`count, this`info
      modifies this`log, this`generation, this`traceState, this`pending
      ensures Model() == HelperSession.Refresh(old(Model()), env)
    {
      hide DrainInto;
      if !isOpen || faulted { return; }
      var seen := Look();
      if seen.None? { return; }
      var (next, packets) := seen.value;
      var regressed := lastCount.Some? && packets < lastCount.value;
      lastCount := Some(packets);
      count := packets;
      var changed := info != [] && info != next;
      info := next;
      assert Model() == Looked(old(Model()), next, packets);
      Drain(regressed, changed);
    }

    method Drain(regressed: bool, changed: bool)
      requires !faulted
      modifies this`calls, this`faulted, this`log, this`generation, this`traceState, this`pending
      ensures Model() == DrainInto(old(Model()), env, regressed, changed)
    {
      hide HelperSession.Collect;
      ghost var before := Model();
      var n, ok := Call();
      if !ok { return; }
      Collect(env.drained(n), regressed, changed);
      if !faulted {
        ghost var lost := Lost(before, AllEvents(env.drained(n), regressed, changed));
        log := log + [Refreshed(generation, info, count, env.drained(n), lost)];
      }
    }

    method Status() returns (r: Response)
      modifies this`pending, this`reported
      ensures (Model(), r) == StatusOf(old(Model()))
    {
      r := StatusIs(info, count, generation, traceState, pending);
      pending := NOTHING;
      reported := generation;
    }

    method OnOpen(op: Operation) returns (r: Response)
      requires op.Open? && !faulted
      modifies this
      ensures (Model(), r) == HelperSession.OnOpen(old(Model()), env, op)
    {
      hide HelperSession.Refresh;
      if !op.argumentsValid { return InvalidArguments; }
      if isOpen { return AlreadyOpen; }
      infoSize := if op.version8 then 64 else 60;
      if !op.factoryOk {
        faulted := true;
        return Fatal;
      }
      var _, initialized := Call();
      if !initialized { return Fatal; }
      var _, connected := Call();
      if !connected { return Fatal; }
      isOpen := true;
      Refresh();
      if faulted { return Fatal; }
      r := Status();
    }

    method OnRead(op: Operation) returns (r: Response)
      requires op.Read? && !faulted
      modifies this
      ensures (Model(), r) == HelperSession.OnRead(old(Model()), env, op)
    {
      hide HelperSession.Refresh;
      if op.generation != generation { return StaleGeneration; }
      if op.start > count || op.count > count - op.start { return InvalidRange; }
      var before := generation;
      var n, ok := Call();
      if !ok { return Fatal; }
      var batch := env.batch(n);
      if !ValidBatch(batch, op.count) {
        faulted := true;
        return Fatal;
      }
      Refresh();
      if faulted { return Fatal; }
      if generation != before { return StaleGeneration; }
      return BatchIs(generation, op.start, batch.1, batch.0);
    }

    method OnControl(op: Operation) returns (r: Response)
      requires (op.Start? || op.Stop?) && !faulted
      modifies this
      ensures (Model(), r) == HelperSession.OnControl(old(Model()), env, op)
    {
      hide HelperSession.Refresh;
      traceState := if op.Start? then StartRequested else StopRequested;
      var _, ok := Call();
      if !ok { return Fatal; }
      Refresh();
      if faulted { return Fatal; }
      return AcceptedIs(generation, traceState);
    }

    method Dispatch(op: Operation) returns (r: Response)
      requires Valid()
      modifies this
      ensures Valid() && (Model(), r) == HelperSession.Dispatch(old(Model()), env, op)
    {
      hide HelperSession.Refresh, HelperSession.OnOpen, HelperSession.OnRead;
      hide HelperSession.OnControl, StatusOf, HelperRuns.Inv;
      DispatchKeeps(Model(), env, op);
      if faulted || terminal { return Fatal; }
      if op.Open? {
        r := OnOpen(op);
        return;
      }
      var refusal := Refusal(op);
      if refusal.Some? { return refusal.value; }
      if !isOpen { return NotOpen; }
      if op.Close? {
        var _, ok := Call();
        if !ok { return Fatal; }
        isOpen, terminal := false, true;
        return ClosedIs;
      }
      Refresh();
      if faulted { return Fatal; }
      if op.Read? { r := OnRead(op); } else if op.Start? || op.Stop? { r := OnControl(op); } else { r := Status(); }
    }
  }
}
