/** What a helper session answers, from the outcomes of its native calls alone: when a refresh
    succeeds and what it changes, and what every request is answered with. */
module HelperExact {

  import opened Prelude
  import opened HelperSession
  import opened HelperRuns

  // ---------- A refresh ----------

  /** The four native calls of a refresh, from call c on, succeed with well-formed results. */
  predicate Answers(env: Environment, size: int, c: nat) {
    && (forall i: nat :: c <= i < c + 4 ==> env.ok(i))
    && |env.info(c + 1)| == size && 0 <= env.count(c + 2) < MAX_UINT64
    && ValidNotification(env.drained(c + 3))
  }

  /** The packet count fell. */
  predicate Fell(s: Session, count: int) {
    s.lastCount.Some? && count < s.lastCount.value
  }

  /** Another decoder answers. */
  predicate Swapped(s: Session, info: seq<byte>) {
    s.info != [] && s.info != info
  }

  /** What a refresh from call c on finds does not continue the trace that s knows. */
  ghost predicate Disturbs(s: Session, env: Environment, c: nat) {
    var n := env.drained(c + 3);
    || Fell(s, env.count(c + 2)) || Swapped(s, env.info(c + 1))
    || n.invalidated || Trouble(n) || AnyInvalidates(n.events)
    || |s.pending.events| + |n.events| > s.limit
  }

  /** The refresh succeeds: there is also a generation left if it needs one. */
  ghost predicate Succeeds(s: Session, env: Environment, c: nat) {
    Answers(env, s.infoSize, c) && (Disturbs(s, env, c) ==> s.generation != MAX_UINT64)
  }

  /** The notices of a refresh: those drained, then a fallen count and a new decoder unless told already. */
  predicate Notices(n: Notification, fell: bool, swapped: bool, all: seq<Notice>) {
    && n.events <= all
    && var own := all[|n.events|..];
    && (PacketCountRegressed in own <==> fell && PacketCountRegressed !in n.events)
    && (DecoderReplacement in own <==> swapped && DecoderReplacement !in n.events)
    && (own == [] || own == [PacketCountRegressed] || own == [DecoderReplacement]
        || own == [PacketCountRegressed, DecoderReplacement])
  }

  lemma NoticesExactly(n: Notification, fell: bool, swapped: bool)
    ensures Notices(n, fell, swapped, AllEvents(n, fell, swapped))
  {
    var all := AllEvents(n, fell, swapped);
    var first := if fell && PacketCountRegressed !in n.events then n.events + [PacketCountRegressed] else n.events;
    assert DecoderReplacement in first <==> DecoderReplacement in n.events;
    assert first[|n.events|..] == if fell && PacketCountRegressed !in n.events then [PacketCountRegressed] else [];
    assert all[|n.events|..]
        == first[|n.events|..] + if swapped && DecoderReplacement !in n.events then [DecoderReplacement] else [];
  }

  /** The trace state the notices leave: unknown if anything was lost or went wrong, otherwise what the
      last notice about it says, otherwise what it was. */
  ghost predicate Leaves(before: TraceState, all: seq<Notice>, lost: int, trouble: bool, after: TraceState) {
    if lost > 0 || trouble then after == UnknownTrace
    else
      && ((forall i :: 0 <= i < |all| ==> !Decides(all[i])) ==> after == before)
      && (forall i :: 0 <= i < |all| && Decides(all[i]) && (forall j :: i < j < |all| ==> !Decides(all[j]))
                      ==> after == Decided(all[i]))
  }

  /** What waits for the next status: as many of the notices as fit, and how many did not. */
  predicate Holds(before: Notification, n: Notification, all: seq<Notice>, limit: int, moved: bool, after: Notification)
    requires |before.events| <= limit
  {
    var fit := Min(|all|, limit - |before.events|);
    && after.events == before.events + all[..fit]
    && after.dropped == Min(MAX_UINT64, before.dropped + n.dropped + |all| - fit)
    && after.ignored == Min(MAX_UINT64, before.ignored + n.ignored)
    && (after.failed <==> before.failed || n.failed)
    && (after.invalidated <==> before.invalidated || moved)
  }

  /** Counts that saturate are counts. */
  predicate Counting(s: Session) {
    && |s.pending.events| <= s.limit
    && 0 <= s.pending.dropped <= MAX_UINT64 && 0 <= s.pending.ignored <= MAX_UINT64
  }

  predicate Working(s: Session) {
    s.isOpen && !s.faulted && Counting(s)
  }

  /** t is s after a refresh that used the native calls from s.calls on and succeeded. */
  ghost predicate IsRefreshed(s: Session, env: Environment, t: Session)
    requires |s.pending.events| <= s.limit
  {
    var c := s.calls;
    var n, count, info := env.drained(c + 3), env.count(c + 2), env.info(c + 1);
    && t.calls == c + 4 && t.info == info && t.count == count && t.lastCount == Some(count)
    && t.generation == s.generation + (if Disturbs(s, env, c) then 1 else 0)
    && Working(t) && t.terminal == s.terminal && t.limit == s.limit
    && t.infoSize == s.infoSize && t.reported == s.reported
    && exists all: seq<Notice> ::
         && Notices(n, Fell(s, count), Swapped(s, info), all)
         && Leaves(s.traceState, all, |s.pending.events| + |all| - s.limit, Trouble(n), t.traceState)
         && Holds(s.pending, n, all, s.limit, Disturbs(s, env, c), t.pending)
  }

  lemma {:induction false} UndecidedStays(c: Collecting, limit: int, events: seq<Notice>)
    requires |c.kept| + |events| <= limit
    requires forall i :: 0 <= i < |events| ==> !Decides(events[i])
    ensures AbsorbAll(c, limit, events).state == c.state
  {
    if events != [] {
      AbsorbsAll(c, limit, events[..|events| - 1]);
      UndecidedStays(c, limit, events[..|events| - 1]);
    }
  }

  lemma AbsorbLeaves(c: Collecting, limit: int, all: seq<Notice>)
    requires |c.kept| <= limit
    ensures Leaves(c.state, all, |c.kept| + |all| - limit, false, AbsorbAll(c, limit, all).state)
  {
    AbsorbsAll(c, limit, all);
    if |c.kept| + |all| <= limit {
      if forall i :: 0 <= i < |all| ==> !Decides(all[i]) { UndecidedStays(c, limit, all); }
      forall i | 0 <= i < |all| && Decides(all[i]) && (forall j :: i < j < |all| ==> !Decides(all[j]))
        ensures AbsorbAll(c, limit, all).state == Decided(all[i])
      {
        LastDecides(c, limit, all, i);
      }
    }
  }

  /** Whether the notices move the generation on. */
  lemma InvalidatesExactly(n: Notification, fell: bool, swapped: bool, all: seq<Notice>)
    requires Notices(n, fell, swapped, all)
    ensures fell || swapped || AnyInvalidates(all) <==> fell || swapped || AnyInvalidates(n.events)
    ensures !fell && !swapped ==> all == n.events
  {
    if AnyInvalidates(n.events) {
      var i :| 0 <= i < |n.events| && Invalidates(n.events[i]);
      assert Invalidates(all[i]);
    }
    assert all == n.events + all[|n.events|..];
  }

  /** What a valid notification is turned into. */
  lemma CollectedExactly(s: Session, n: Notification, fell: bool, swapped: bool)
    requires Counting(s) && ValidNotification(n)
    ensures var (t, moved) := Collected(s, n, fell, swapped);
            var all := AllEvents(n, fell, swapped);
            && t == s.(traceState := t.traceState, pending := t.pending)
            && (moved <==> || fell || swapped || n.invalidated || Trouble(n) || AnyInvalidates(n.events)
                           || |s.pending.events| + |n.events| > s.limit)
            && Leaves(s.traceState, all, |s.pending.events| + |all| - s.limit, Trouble(n), t.traceState)
            && Holds(s.pending, n, all, s.limit, false, t.pending)
  {
    hide AllEvents, AbsorbAll, Leaves, ValidNotification;
    var all := AllEvents(n, fell, swapped);
    var c := Collecting(s.traceState, s.pending.events, s.pending.dropped, n.invalidated || fell || swapped);
    NoticesExactly(n, fell, swapped);
    InvalidatesExactly(n, fell, swapped, all);
    AbsorbsAll(c, s.limit, all);
    AbsorbLeaves(c, s.limit, all);
    KeepsOrCounts(c, s.limit, all);
    LeavesTroubled(s.traceState, all, |s.pending.events| + |all| - s.limit, AbsorbAll(c, s.limit, all).state);
    ValidCounts(n);
  }

  lemma ValidCounts(n: Notification)
    requires ValidNotification(n)
    ensures 0 <= n.dropped && 0 <= n.ignored
  {
  }

  lemma LeavesTroubled(before: TraceState, all: seq<Notice>, lost: int, after: TraceState)
    requires Leaves(before, all, lost, false, after)
    ensures Leaves(before, all, lost, true, UnknownTrace)
  {
  }

  /** The generation moves on, or there is none left. */
  lemma CollectExactly(s: Session, n: Notification, fell: bool, swapped: bool)
    requires Counting(s) && !s.faulted
    ensures var t, (u, moved) := Collect(s, n, fell, swapped), Collected(s, n, fell, swapped);
            && (t.faulted <==> !ValidNotification(n) || (moved && s.generation == MAX_UINT64))
            && (!t.faulted ==> t == u.(generation := s.generation + (if moved then 1 else 0),
                                    pending := u.pending.(invalidated := s.pending.invalidated || moved)))
  {
    hide AbsorbAll, AllEvents, ValidNotification, Counting, Trouble;
  }

  /** The session that is refreshed except for its notifications. */
  function Reread(s: Session, env: Environment): Session {
    Looked(s, env.info(s.calls + 1), env.count(s.calls + 2)).(calls := s.calls + 4)
  }

  lemma AnsweredCollects(s: Session, env: Environment)
    requires Working(s)
    ensures var t, n := Refresh(s, env), env.drained(s.calls + 3);
            var fell, swapped := Fell(s, env.count(s.calls + 2)), Swapped(s, env.info(s.calls + 1));
            var u := Collect(Reread(s, env), n, fell, swapped);
            && (t.faulted <==> !Answers(env, s.infoSize, s.calls) || u.faulted)
            && (!t.faulted ==> t == Record(u, n, Lost(s, AllEvents(n, fell, swapped))))
  {
    hide AllEvents, Collect, ValidNotification;
    var c := s.calls;
    var n, fell, swapped := env.drained(c + 3), Fell(s, env.count(c + 2)), Swapped(s, env.info(c + 1));
    if !ValidNotification(n) { InvalidFaults(Reread(s, env), n, fell, swapped); }
    if Answers(env, s.infoSize, c) {
      assert env.ok(c) && env.ok(c + 1) && env.ok(c + 2) && env.ok(c + 3);
      assert Refresh(s, env) == DrainInto(Looked(s, env.info(c + 1), env.count(c + 2)), env, fell, swapped);
      assert Looked(s, env.info(c + 1), env.count(c + 2)).(calls := c + 3 + 1) == Reread(s, env);
    }
  }

  lemma InvalidFaults(s: Session, n: Notification, fell: bool, swapped: bool)
    requires !ValidNotification(n)
    ensures Collect(s, n, fell, swapped).faulted
  {
  }

  /** A refresh of a working session, exactly: when it fails, and what it changes otherwise. */
  lemma RefreshExactly(s: Session, env: Environment)
    requires Working(s)
    ensures var t := Refresh(s, env);
            && (t.faulted <==> !Succeeds(s, env, s.calls))
            && (!t.faulted ==> IsRefreshed(s, env, t))
  {
    hide AllEvents, Collected, Collect, Refresh, Leaves, ValidNotification, AnyInvalidates, Trouble, Notices;
    AnsweredCollects(s, env);
    if Answers(env, s.infoSize, s.calls) {
      var n := env.drained(s.calls + 3);
      var fell, swapped := Fell(s, env.count(s.calls + 2)), Swapped(s, env.info(s.calls + 1));
      NoticesExactly(n, fell, swapped);
      CollectExactly(Reread(s, env), n, fell, swapped);
      CollectedExactly(Reread(s, env), n, fell, swapped);
      ValidCounts(n);
    }
  }

  // ---------- Requests ----------

  lemma SucceedsElsewhere(s: Session, t: Session, env: Environment, c: nat)
    requires t == s.(calls := t.calls, traceState := t.traceState)
    ensures Succeeds(s, env, c) <==> Succeeds(t, env, c)
    ensures Disturbs(s, env, c) <==> Disturbs(t, env, c)
  {
    hide Answers, Trouble, AnyInvalidates;
  }

  /** Call c gives at most count whole packets, and the refresh after it succeeds. */
  ghost predicate Delivers(u: Session, env: Environment, c: nat, count: int) {
    env.ok(c) && ValidBatch(env.batch(c), count) && Succeeds(u, env, c + 1)
  }

  /** A read on a working session, exactly. With u the session its first refresh leaves: the packets of
      the native call are returned if and only if the generation asked for is the one u has, the range lies
      within what u counts, the call delivers, and the refresh after it finds the same trace. */
  lemma ReadExactly(s: Session, env: Environment, op: Operation)
    requires Working(s) && !s.terminal && op.Read? && Refusal(op).None?
    ensures var (t, r) := Dispatch(s, env, op);
            var u, c := Refresh(s, env), s.calls + 4;
            if !Succeeds(s, env, s.calls) then r == Fatal && t.faulted
            else
              && IsRefreshed(s, env, u)
              && (r == InvalidRange <==> op.generation == u.generation && op.start + op.count > u.count)
              && (r == Fatal <==> && op.generation == u.generation && op.start + op.count <= u.count
                                  && !Delivers(u, env, c, op.count))
              && (r == StaleGeneration <==>
                  || op.generation != u.generation
                  || (op.start + op.count <= u.count && Delivers(u, env, c, op.count) && Disturbs(u, env, c + 1)))
              && (r.BatchIs? <==> && op.generation == u.generation && op.start + op.count <= u.count
                                  && Delivers(u, env, c, op.count) && !Disturbs(u, env, c + 1))
              && (r.BatchIs? ==> r == BatchIs(op.generation, op.start, env.batch(c).1, env.batch(c).0))
              && (t.faulted <==> r == Fatal)
              && (!t.faulted ==> t == u || IsRefreshed(u.(calls := c + 1), env, t))
  {
    hide Refresh, Answers, Disturbs, Leaves, Notices, Holds, ValidBatch;
    var u := Refresh(s, env);
    RefreshExactly(s, env);
    if !u.faulted {
      var v := u.(calls := u.calls + 1);
      SucceedsElsewhere(u, v, env, v.calls);
      if env.ok(u.calls) {
        assert Call(u, env) == v;
        RefreshExactly(v, env);
      }
    }
  }

  /** A start or stop on a working session, exactly: it is accepted if and only if the native side does it
      and both refreshes succeed, and the state reported is the one requested unless the second refresh
      learned better. */
  lemma ControlExactly(s: Session, env: Environment, op: Operation)
    requires Working(s) && !s.terminal && (op.Start? || op.Stop?) && op.authorized
    ensures var (t, r) := Dispatch(s, env, op);
            var u, c := Refresh(s, env), s.calls + 4;
            var asked := u.(calls := c + 1, traceState := if op.Start? then StartRequested else StopRequested);
            if Succeeds(s, env, s.calls) && env.ok(c) && Succeeds(u, env, c + 1) then
              && IsRefreshed(s, env, u) && Working(asked) && IsRefreshed(asked, env, t)
              && r == AcceptedIs(t.generation, t.traceState)
            else r == Fatal && t.faulted
  {
    hide Refresh, Answers, Disturbs, Leaves, Notices, Holds;
    var u := Refresh(s, env);
    RefreshExactly(s, env);
    if !u.faulted {
      var asked := u.(calls := u.calls + 1, traceState := if op.Start? then StartRequested else StopRequested);
      SucceedsElsewhere(u, asked, env, asked.calls);
      if env.ok(u.calls) {
        assert Call(u.(traceState := asked.traceState), env) == asked;
        RefreshExactly(asked, env);
      }
    }
  }

  /** t is u after a status r that says what u knows: what waited is handed out once. */
  predicate Reports(u: Session, t: Session, r: Response) {
    && r == StatusIs(u.info, u.count, u.generation, u.traceState, u.pending)
    && t == u.(pending := NOTHING, reported := u.generation)
  }

  lemma StatusExactly(s: Session, env: Environment)
    requires Working(s) && !s.terminal
    ensures var (t, r) := Dispatch(s, env, Status);
            if Succeeds(s, env, s.calls) then
              exists u: Session :: IsRefreshed(s, env, u) && Reports(u, t, r)
            else r == Fatal && t.faulted
  {
    hide Refresh, Succeeds, IsRefreshed;
    RefreshExactly(s, env);
    assert Succeeds(s, env, s.calls) ==>
        var (t, r) := Dispatch(s, env, Status); Reports(Refresh(s, env), t, r);
  }

  /** The session that an open connects. */
  function Connected(s: Session, op: Operation): Session
    requires op.Open?
  {
    s.(infoSize := if op.version8 then 64 else 60, calls := s.calls + 2, isOpen := true)
  }

  /** An open, exactly: refused without an effect, reported as a status, or fatal. */
  lemma OpenExactly(s: Session, env: Environment, op: Operation)
    requires Counting(s) && !s.faulted && !s.terminal && op.Open?
    ensures var (t, r) := Dispatch(s, env, op);
            if !op.argumentsValid then t == s && r == InvalidArguments
            else if s.isOpen then t == s && r == AlreadyOpen
            else if op.factoryOk && env.ok(s.calls) && env.ok(s.calls + 1)
                    && Succeeds(Connected(s, op), env, s.calls + 2) then
              exists u: Session :: IsRefreshed(Connected(s, op), env, u) && Reports(u, t, r)
            else r == Fatal && t.faulted
  {
    hide Refresh, Succeeds, IsRefreshed;
    var v := Connected(s, op);
    RefreshExactly(v, env);
    if op.argumentsValid && !s.isOpen && op.factoryOk && env.ok(s.calls) && env.ok(s.calls + 1) {
      assert Dispatch(s, env, op) == var u := Refresh(v, env); if u.faulted then (u, Fatal) else StatusOf(u);
      assert Succeeds(v, env, v.calls) ==>
          var (t, r) := Dispatch(s, env, op); Reports(Refresh(v, env), t, r);
    }
  }

  /** A close of an open session, and every request that reaches no native call. */
  lemma OthersExactly(s: Session, env: Environment, op: Operation)
    requires !op.Open?
    ensures var (t, r) := Dispatch(s, env, op);
            && (s.faulted || s.terminal ==> t == s && r == Fatal)
            && (!s.faulted && !s.terminal ==>
                  && (op.Unsupported? ==> t == s && r == UnsupportedOperation)
                  && (op.BadArguments? ==> t == s && r == InvalidArguments)
                  && ((op.Start? || op.Stop?) && !op.authorized ==> t == s && r == InvalidArguments)
                  && (op.Read? ==> if && 0 <= op.start && op.start + op.count <= MAX_UINT64
                                      && 1 <= op.count <= MAX_PACKET_BATCH && 1 <= op.generation <= MAX_UINT64
                        then Refusal(op).None? else t == s && r == InvalidArguments)
                  && (Refusal(op).None? && !s.isOpen ==> t == s && r == NotOpen)
                  && (op.Close? && s.isOpen ==>
                        if env.ok(s.calls) then
                          t == s.(calls := s.calls + 1, isOpen := false, terminal := true) && r == ClosedIs
                        else t == s.(calls := s.calls + 1, faulted := true) && r == Fatal))
  {
    hide Refresh, OnRead, OnControl, StatusOf;
  }

  // ---------- Every run ----------

  /** A session that has not faulted. */
  predicate Fit(s: Session) {
    !s.faulted ==> Counting(s)
  }

  lemma ClosedStays(s: Session, env: Environment)
    ensures !s.isOpen || s.faulted ==> Refresh(s, env) == s
  {
    hide DrainInto;
  }

  lemma RefreshFit(s: Session, env: Environment)
    requires Fit(s)
    ensures Fit(Refresh(s, env))
  {
    hide Refresh, Succeeds, Counting, Leaves, Notices, Holds, Disturbs;
    ClosedStays(s, env);
    if Working(s) { RefreshExactly(s, env); }
  }

  lemma DispatchFit(s: Session, env: Environment, op: Operation)
    requires Fit(s) && 0 <= s.limit
    ensures Fit(Dispatch(s, env, op).0)
  {
    hide Succeeds, Delivers, Leaves, Notices, Disturbs, Refresh, Answers;
    if !s.faulted && !s.terminal {
      if op.Open? { OpenExactly(s, env, op); }
      if !op.Open? { OthersExactly(s, env, op); }
      if s.isOpen && Refusal(op).None? {
        if op.Read? { ReadExactly(s, env, op); }
        if op.Status? { StatusExactly(s, env); }
        if op.Start? || op.Stop? { ControlExactly(s, env, op); }
      }
    }
  }

  /** Whatever was requested and whatever the native side did, a session that has not faulted counts: all
      the above is true of every request of every run. */
  lemma {:induction false} RunCounts(limit: nat, env: Environment, actions: seq<Action>)
    ensures var s := Run(limit, env, actions); s.limit == limit && (!s.faulted ==> Counting(s))
  {
    if actions != [] {
      hide Dispatch, Refresh, Counting;
      var before, a := Run(limit, env, actions[..|actions| - 1]), actions[|actions| - 1];
      RunCounts(limit, env, actions[..|actions| - 1]);
      RefreshFit(before, env);
      RefreshExtends(before, env);
      if a.Request? {
        DispatchFit(before, env, a.op);
        DispatchLimit(before, env, a.op);
      }
    }
  }

  lemma DispatchLimit(s: Session, env: Environment, op: Operation)
    ensures Dispatch(s, env, op).0.limit == s.limit
  {
    hide Refresh, Refusal, ValidBatch;
    forall t: Session ensures Refresh(t, env).limit == t.limit { RefreshExtends(t, env); }
  }
}
