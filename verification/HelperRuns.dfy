/** What the generation number of the helper session means over every run. */
module HelperRuns {

  import opened Prelude
  import opened HelperSession

  // ---------- Invariants ----------

  /** Nothing happened between two refreshes that would tell the second trace from the first. */
  ghost predicate Quiet(a: Refreshed, b: Refreshed) {
    && a.info == b.info && a.count <= b.count
    && !b.drained.invalidated && !Trouble(b.drained) && b.lost == 0
    && forall i :: 0 <= i < |b.drained.events| ==> !Invalidates(b.drained.events[i])
  }

  /** Generations never go back, and stay the same only over quiet refreshes. */
  ghost predicate Fenced(log: seq<Refreshed>) {
    && (forall i, j :: 0 <= i <= j < |log| ==> log[i].generation <= log[j].generation)
    && (forall j :: 1 <= j < |log| && log[j - 1].generation == log[j].generation ==> Quiet(log[j - 1], log[j]))
  }

  /** A working session knows what the last refresh saw. */
  predicate Current(s: Session) {
    if s.log == [] then s.lastCount.None? && s.info == [] && s.generation == 1
    else
      var last := s.log[|s.log| - 1];
      && s.generation == last.generation && s.info == last.info && s.count == last.count && s.lastCount == Some(s.count)
      && |s.info| == s.infoSize
  }

  ghost predicate Inv(s: Session) {
    && Fenced(s.log)
    && (s.isOpen ==> s.infoSize > 0)
    && (!s.isOpen && !s.terminal && !s.faulted ==> s.log == [])
    && (s.isOpen && !s.faulted ==> s.log != [])
    && (!s.faulted ==>
          && Current(s) && |s.pending.events| <= s.limit && s.reported <= s.generation
          && (s.pending.invalidated <==> s.reported != s.generation))
  }

  // ---------- Collecting ----------

  ghost predicate AnyInvalidates(events: seq<Notice>) {
    exists i :: 0 <= i < |events| && Invalidates(events[i])
  }

  lemma {:induction false} AbsorbsAll(c: Collecting, limit: int, events: seq<Notice>)
    requires |c.kept| <= limit
    ensures var d := AbsorbAll(c, limit, events);
            && |d.kept| == Min(limit, |c.kept| + |events|) && c.kept <= d.kept
            && (|c.kept| + |events| > limit ==> d.state == UnknownTrace)
            && (d.invalidate <==> c.invalidate || AnyInvalidates(events) || |c.kept| + |events| > limit)
  {
    if events != [] {
      var front, e := events[..|events| - 1], events[|events| - 1];
      AbsorbsAll(c, limit, front);
      if AnyInvalidates(front) {
        var i :| 0 <= i < |front| && Invalidates(front[i]);
        assert Invalidates(events[i]);
      }
      if AnyInvalidates(events) {
        var i :| 0 <= i < |events| && Invalidates(events[i]);
        assert i < |front| ==> Invalidates(front[i]);
      }
    }
  }

  /** What is kept and what is only counted. */
  lemma {:induction false} KeepsOrCounts(c: Collecting, limit: int, events: seq<Notice>)
    requires |c.kept| <= limit && c.dropped <= MAX_UINT64
    ensures var d, fit := AbsorbAll(c, limit, events), Min(|events|, limit - |c.kept|);
            d.kept == c.kept + events[..fit] && d.dropped == Min(MAX_UINT64, c.dropped + |events| - fit)
  {
    if events == [] {
      assert c.kept + events[..0] == c.kept;
    } else {
      var front := events[..|events| - 1];
      KeepsOrCounts(c, limit, front);
      var fit := Min(|events|, limit - |c.kept|);
      if fit == |events| {
        assert front[..|front|] == front;
        assert c.kept + events[..fit] == c.kept + front + [events[|events| - 1]];
      } else {
        assert front[..fit] == events[..fit];
      }
    }
  }

  predicate Decides(e: Notice) {
    e == TraceStop || Invalidates(e)
  }

  function Decided(e: Notice): TraceState {
    if e == TraceStart then RunningTrace else if e == TraceStop then StoppedTrace else UnknownTrace
  }

  /** If nothing is lost, the last notice that says anything about the trace decides. */
  lemma {:induction false} LastDecides(c: Collecting, limit: int, events: seq<Notice>, i: nat)
    requires |c.kept| + |events| <= limit && i < |events| && Decides(events[i])
    requires forall j :: i < j < |events| ==> !Decides(events[j])
    ensures AbsorbAll(c, limit, events).state == Decided(events[i])
  {
    var front := events[..|events| - 1];
    AbsorbsAll(c, limit, front);
    if i < |events| - 1 { LastDecides(c, limit, front, i); }
  }

  /** The events the helper adds itself are there whenever it noticed something. */
  lemma NoticedAreIn(n: Notification, regressed: bool, changed: bool)
    ensures var all := AllEvents(n, regressed, changed);
            && n.events <= all
            && (regressed ==> PacketCountRegressed in all) && (changed ==> DecoderReplacement in all)
  {
    var first := if regressed && PacketCountRegressed !in n.events then n.events + [PacketCountRegressed] else n.events;
    var all := AllEvents(n, regressed, changed);
    assert forall e :: e in first ==> e in all;
    assert regressed && PacketCountRegressed !in n.events ==> first[|n.events|] == PacketCountRegressed;
    assert changed && DecoderReplacement !in first ==> all[|first|] == DecoderReplacement;
  }

  /** If the generation stays, nothing invalidating was drained, noticed or lost. */
  lemma StayMeansQuiet(s: Session, n: Notification, regressed: bool, changed: bool)
    requires |s.pending.events| <= s.limit && ValidNotification(n)
    ensures !Collected(s, n, regressed, changed).1 ==>
              && !regressed && !changed && !n.invalidated && !Trouble(n)
              && Lost(s, AllEvents(n, regressed, changed)) == 0
              && forall i :: 0 <= i < |n.events| ==> !Invalidates(n.events[i])
    ensures |Collected(s, n, regressed, changed).0.pending.events| <= s.limit
  {
    hide AbsorbAll, AllEvents;
    var all := AllEvents(n, regressed, changed);
    NoticedAreIn(n, regressed, changed);
    AbsorbsAll(Collecting(s.traceState, s.pending.events, s.pending.dropped, n.invalidated || regressed || changed),
               s.limit, all);
    assert forall i :: 0 <= i < |n.events| && Invalidates(n.events[i]) ==> Invalidates(all[i]);
  }

  /** Whatever was lost, in the native side or here, the trace state is not claimed to be
      known, and the generation moves on unless the session faults. */
  lemma LossIsUnknown(s: Session, n: Notification, regressed: bool, changed: bool)
    requires |s.pending.events| <= s.limit && ValidNotification(n)
    requires n.dropped != 0 || Lost(s, AllEvents(n, regressed, changed)) > 0
    ensures var t := Collect(s, n, regressed, changed);
            t.traceState == UnknownTrace && (t.faulted || t.generation == s.generation + 1)
  {
    hide AbsorbAll, AllEvents;
    AbsorbsAll(Collecting(s.traceState, s.pending.events, s.pending.dropped, n.invalidated || regressed || changed),
               s.limit, AllEvents(n, regressed, changed));
  }

  // ---------- Every action keeps the fence ----------

  lemma LogGrows(log: seq<Refreshed>, r: Refreshed)
    requires Fenced(log)
    requires log != [] ==> log[|log| - 1].generation <= r.generation
                           && (log[|log| - 1].generation == r.generation ==> Quiet(log[|log| - 1], r))
    ensures Fenced(log + [r])
  {
    hide Quiet;
  }

  /** A session whose native side was just asked for info and count. */
  ghost predicate Asked(s: Session, regressed: bool, changed: bool) {
    && Fenced(s.log) && |s.pending.events| <= s.limit && s.isOpen && s.infoSize > 0 && !s.faulted
    && |s.info| == s.infoSize && s.lastCount == Some(s.count)
    && s.reported <= s.generation && (s.pending.invalidated <==> s.reported != s.generation)
    && (s.log == [] ==> s.generation == 1)
    && (s.log != [] ==> var last := s.log[|s.log| - 1];
                        && s.generation == last.generation
                        && (!regressed ==> last.count <= s.count)
                        && (!changed ==> last.info == s.info))
  }

  /** What no refresh undoes. */
  predicate Extends(s: Session, t: Session) {
    && s.log <= t.log && t.terminal == s.terminal && t.isOpen == s.isOpen
    && t.reported == s.reported && t.infoSize == s.infoSize && t.limit == s.limit
  }

  lemma CollectedFrames(s: Session, n: Notification, regressed: bool, changed: bool)
    ensures var t := Collected(s, n, regressed, changed).0;
            && Extends(s, t) && t.log == s.log && t.info == s.info && t.count == s.count && t.lastCount == s.lastCount
            && t.generation == s.generation && t.pending.invalidated == s.pending.invalidated && t.faulted == s.faulted
  {
    hide AbsorbAll, AllEvents;
  }

  /** Collecting changes the notifications, the trace state and perhaps the generation. */
  lemma CollectFrames(s: Session, n: Notification, regressed: bool, changed: bool)
    ensures var t := Collect(s, n, regressed, changed);
            Extends(s, t) && t.log == s.log && t.info == s.info && t.count == s.count && t.lastCount == s.lastCount
    ensures var t := Collect(s, n, regressed, changed);
            !t.faulted ==> ValidNotification(n)
                           && (if Collected(s, n, regressed, changed).1
                               then t.generation == s.generation + 1 && t.pending.invalidated
                               else t.generation == s.generation && t.pending.invalidated == s.pending.invalidated)
                           && t.pending.events == Collected(s, n, regressed, changed).0.pending.events
  {
    hide Collected, ValidNotification;
    CollectedFrames(s, n, regressed, changed);
  }

  lemma RecordKeeps(s: Session, t: Session, n: Notification, regressed: bool, changed: bool, lost: int)
    requires Asked(s, regressed, changed) && !t.faulted && Extends(s, t)
    requires t.log == s.log && |t.pending.events| <= t.limit
    requires t.info == s.info && t.count == s.count && t.lastCount == s.lastCount
    requires || (t.generation == s.generation + 1 && t.pending.invalidated)
             || (&& t.generation == s.generation && t.pending.invalidated == s.pending.invalidated
                 && !regressed && !changed && !n.invalidated && !Trouble(n)
                 && lost == 0 && forall i :: 0 <= i < |n.events| ==> !Invalidates(n.events[i]))
    ensures Inv(Record(t, n, lost))
  {
    LogGrows(s.log, Refreshed(t.generation, t.info, t.count, n, lost));
    hide Fenced;
  }

  lemma DrainKeeps(s: Session, env: Environment, regressed: bool, changed: bool)
    requires Asked(s, regressed, changed)
    ensures Inv(DrainInto(s, env, regressed, changed))
  {
    hide AllEvents, Collect, Collected, ValidNotification, Fenced, Record;
    var n := env.drained(s.calls);
    var c := s.(calls := s.calls + 1);
    var t := Collect(c, n, regressed, changed);
    CollectFrames(c, n, regressed, changed);
    if env.ok(s.calls) && !t.faulted {
      StayMeansQuiet(c, n, regressed, changed);
      RecordKeeps(s, t, n, regressed, changed, Lost(s, AllEvents(n, regressed, changed)));
    } else {
      FaultedKeeps(DrainInto(s, env, regressed, changed), s);
    }
  }

  lemma FaultExtends(s: Session)
    ensures forall n: nat :: var t := Fault(s, n); Extends(s, t) && t.log == s.log && t.faulted
  {
  }

  /** A faulted session promises nothing but its history. */
  lemma FaultedKeeps(t: Session, s: Session)
    requires t.faulted && Fenced(s.log) && t.log == s.log && s.isOpen && s.infoSize > 0 && Extends(s, t)
    ensures Inv(t)
  {
  }

  lemma RefreshKeeps(s: Session, env: Environment)
    requires Inv(s) || (Inv(s.(isOpen := false)) && s.isOpen && !s.faulted && s.log == [] && s.infoSize > 0)
    ensures Inv(Refresh(s, env))
  {
    hide DrainInto, Fenced, Fault;
    FaultExtends(s);
    var info, count := env.info(s.calls + 1), env.count(s.calls + 2);
    if s.isOpen && !s.faulted && |info| == s.infoSize {
      DrainKeeps(Looked(s, info, count), env, s.lastCount.Some? && count < s.lastCount.value,
                 s.info != [] && s.info != info);
    }
  }

  lemma CallKeeps(s: Session, env: Environment)
    requires Inv(s)
    ensures Inv(Call(s, env))
  {
    hide Fenced;
  }

  lemma OpenKeeps(s: Session, env: Environment, op: Operation)
    requires Inv(s) && op.Open? && !s.faulted && !s.terminal
    ensures Inv(OnOpen(s, env, op).0)
  {
    hide Refresh, Fenced;
    if op.argumentsValid && !s.isOpen && op.factoryOk {
      var t := s.(infoSize := if op.version8 then 64 else 60);
      var u := Call(Call(t, env), env);
      if !u.faulted { RefreshKeeps(u.(isOpen := true), env); }
    }
  }

  lemma ReadKeeps(s: Session, env: Environment, op: Operation)
    requires Inv(s) && op.Read?
    ensures Inv(OnRead(s, env, op).0)
  {
    hide Refresh, Fenced;
    CallKeeps(s, env);
    RefreshKeeps(Call(s, env), env);
  }

  lemma ControlKeeps(s: Session, env: Environment, op: Operation)
    requires Inv(s) && (op.Start? || op.Stop?)
    ensures Inv(OnControl(s, env, op).0)
  {
    hide Refresh, Fenced;
    var t := s.(traceState := if op.Start? then StartRequested else StopRequested);
    CallKeeps(t, env);
    RefreshKeeps(Call(t, env), env);
  }

  lemma StatusKeeps(s: Session)
    requires Inv(s)
    ensures Inv(StatusOf(s).0)
  {
    hide Fenced;
  }

  lemma DispatchKeeps(s: Session, env: Environment, op: Operation)
    requires Inv(s)
    ensures Inv(Dispatch(s, env, op).0)
  {
    hide Refresh, OnOpen, OnRead, OnControl, StatusOf, Fenced, Refusal;
    if !s.faulted && !s.terminal {
      if op.Open? {
        OpenKeeps(s, env, op);
      } else if s.isOpen {
        CallKeeps(s, env);
        RefreshKeeps(s, env);
        var t := Refresh(s, env);
        if op.Read? {
          ReadKeeps(t, env, op);
        } else if op.Start? || op.Stop? {
          ControlKeeps(t, env, op);
        } else {
          StatusKeeps(t);
        }
      }
    }
  }

  lemma {:induction false} RunKeeps(limit: int, env: Environment, actions: seq<Action>)
    requires limit >= 1
    ensures Inv(Run(limit, env, actions))
  {
    if actions != [] {
      hide Inv, Dispatch, Refresh;
      var before := Run(limit, env, actions[..|actions| - 1]);
      RunKeeps(limit, env, actions[..|actions| - 1]);
      RefreshKeeps(before, env);
      var a := actions[|actions| - 1];
      if a.Request? { DispatchKeeps(before, env, a.op); }
    }
  }

  // ---------- What a response may be trusted for ----------

  lemma DrainExtends(s: Session, env: Environment, regressed: bool, changed: bool)
    ensures Extends(s, DrainInto(s, env, regressed, changed))
    ensures var t := DrainInto(s, env, regressed, changed); t.faulted || |t.log| == |s.log| + 1
  {
    hide AllEvents, Collect;
    CollectFrames(s.(calls := s.calls + 1), env.drained(s.calls), regressed, changed);
  }

  lemma RefreshExtends(s: Session, env: Environment)
    ensures Extends(s, Refresh(s, env))
    ensures var t := Refresh(s, env); s.isOpen && !s.faulted ==> t.faulted || |t.log| == |s.log| + 1
  {
    hide DrainInto, Fault;
    FaultExtends(s);
    var info, count := env.info(s.calls + 1), env.count(s.calls + 2);
    DrainExtends(Looked(s, info, count), env, s.lastCount.Some? && count < s.lastCount.value,
                 s.info != [] && s.info != info);
  }

  /** A response that carries anything is given by a working session, and says what it knows. */
  predicate Says(s: Session, r: Response) {
    Carries(r) ==>
      && !s.faulted && s.isOpen && r.generation == s.generation
      && (r.StatusIs? ==> r.info == s.info && r.count == s.count)
  }

  lemma OpenSays(s: Session, env: Environment, op: Operation)
    requires op.Open?
    ensures var (t, r) := OnOpen(s, env, op); Says(t, r) && s.log <= t.log
    ensures var (t, r) := OnOpen(s, env, op); r.StatusIs? ==> t.reported == t.generation
  {
    hide Refresh;
    var t := s.(infoSize := if op.version8 then 64 else 60);
    RefreshExtends(Call(Call(t, env), env).(isOpen := true), env);
  }

  lemma ReadSays(s: Session, env: Environment, op: Operation)
    requires op.Read? && s.isOpen && !s.faulted
    ensures var (t, r) := OnRead(s, env, op); Says(t, r) && s.log <= t.log && !r.StatusIs?
    ensures var (t, r) := OnRead(s, env, op);
            r.BatchIs? ==> && r.generation == op.generation == s.generation
                           && r.start == op.start && 0 <= r.count <= op.count
                           && |r.packets| == PACKET_BYTES * r.count && op.start + op.count <= s.count
                           && |t.log| == |s.log| + 1
  {
    hide Refresh;
    RefreshExtends(Call(s, env), env);
  }

  lemma ControlSays(s: Session, env: Environment, op: Operation)
    requires (op.Start? || op.Stop?) && s.isOpen
    ensures var (t, r) := OnControl(s, env, op); Says(t, r) && s.log <= t.log && !r.StatusIs?
  {
    hide Refresh;
    var t := s.(traceState := if op.Start? then StartRequested else StopRequested);
    RefreshExtends(Call(t, env), env);
  }

  lemma DispatchSays(s: Session, env: Environment, op: Operation)
    ensures var (t, r) := Dispatch(s, env, op); Says(t, r) && s.log <= t.log
  {
    hide Refresh, OnOpen, OnRead, OnControl, Refusal;
    RefreshExtends(s, env);
    if op.Open? { OpenSays(s, env, op); }
    else if s.isOpen && !s.faulted {
      var t := Refresh(s, env);
      if !t.faulted {
        if op.Read? { ReadSays(t, env, op); }
        if op.Start? || op.Stop? { ControlSays(t, env, op); }
      }
    }
  }

  /** Packets are returned only for the generation asked for, in the range asked for, and only
      if that range lay within the trace at the refreshes around the read, which are quiet. */
  lemma ReadIsFenced(s: Session, env: Environment, op: Operation)
    requires Inv(s) && op.Read?
    ensures var (t, r) := Dispatch(s, env, op);
            r.BatchIs? ==>
              && r.generation == op.generation && r.start == op.start && 0 <= r.count <= op.count
              && |r.packets| == PACKET_BYTES * r.count
              && |t.log| >= 2 && var before, after := t.log[|t.log| - 2], t.log[|t.log| - 1];
                              && before.generation == after.generation == op.generation && Quiet(before, after)
                              && op.start + op.count <= before.count <= after.count
  {
    hide Refresh, OnRead;
    if s.isOpen && !s.faulted {
      var t := Refresh(s, env);
      RefreshKeeps(s, env);
      RefreshExtends(s, env);
      if !t.faulted {
        ReadSays(t, env, op);
        ReadKeeps(t, env, op);
      }
    }
  }

  /** The flag in a status says exactly whether the generation moved since the last status. */
  lemma StatusReports(s: Session, env: Environment, op: Operation)
    requires Inv(s)
    ensures var (t, r) := Dispatch(s, env, op);
            r.StatusIs? ==> (r.notifications.invalidated <==> r.generation != s.reported) && t.reported == r.generation
  {
    hide Refresh, OnRead, OnControl, Fenced, Refusal;
    RefreshExtends(s, env);
    RefreshKeeps(s, env);
    if op.Open? {
      if !s.faulted && !s.terminal && op.argumentsValid && !s.isOpen && op.factoryOk {
        var u := Call(Call(s.(infoSize := if op.version8 then 64 else 60), env), env);
        if !u.faulted {
          RefreshKeeps(u.(isOpen := true), env);
          RefreshExtends(u.(isOpen := true), env);
        }
      }
    } else if s.isOpen && !s.faulted && !Refresh(s, env).faulted {
      if op.Read? { ReadSays(Refresh(s, env), env, op); }
      if op.Start? || op.Stop? { ControlSays(Refresh(s, env), env, op); }
    }
  }

  // ---------- The theorem ----------

  /** Between two refreshes of one generation every refresh is quiet. */
  lemma {:induction false} SameGenerationIsQuiet(log: seq<Refreshed>, i: nat, j: nat)
    requires Fenced(log) && i <= j < |log| && log[i].generation == log[j].generation
    ensures forall k :: i < k <= j ==> log[k].generation == log[i].generation && Quiet(log[k - 1], log[k])
    ensures log[i].info == log[j].info && log[i].count <= log[j].count
  {
    if i < j {
      assert log[i].generation <= log[j - 1].generation <= log[j].generation;
      SameGenerationIsQuiet(log, i, j - 1);
    }
  }

  lemma {:induction false} RunGrows(limit: int, env: Environment, actions: seq<Action>, k: nat)
    requires k <= |actions|
    ensures Run(limit, env, actions[..k]).log <= Run(limit, env, actions).log
  {
    if k == |actions| {
      assert actions[..k] == actions;
    } else {
      hide Dispatch, Refresh;
      var front, a := actions[..|actions| - 1], actions[|actions| - 1];
      RunGrows(limit, env, front, k);
      assert front[..k] == actions[..k];
      var before := Run(limit, env, front);
      RefreshExtends(before, env);
      if a.Request? { DispatchSays(before, env, a.op); }
    }
  }

  /** The refreshes done when the k-th action has been served. */
  function LogAt(limit: int, env: Environment, actions: seq<Action>, k: nat): seq<Refreshed>
    requires k < |actions|
  {
    Run(limit, env, actions[..k + 1]).log
  }

  lemma ResponseTells(limit: int, env: Environment, actions: seq<Action>, k: nat)
    requires limit >= 1 && k < |actions|
    ensures var r := ResponseAt(limit, env, actions, k);
            r.Some? && Carries(r.value) ==>
              var log := LogAt(limit, env, actions, k);
              && log != [] && r.value.generation == log[|log| - 1].generation
              && (r.value.StatusIs? ==> r.value.info == log[|log| - 1].info && r.value.count == log[|log| - 1].count)
  {
    hide Dispatch, Refresh, Fenced;
    assert actions[..k + 1][..k] == actions[..k];
    RunKeeps(limit, env, actions[..k + 1]);
    if actions[k].Request? { DispatchSays(Run(limit, env, actions[..k]), env, actions[k].op); }
  }

  /** Two responses with the same generation, anywhere in any run, enclose only quiet
      refreshes: the decoder info is the same throughout, the count never falls, and nothing
      was drained that starts, clears, drops, ignores or fails. */
  lemma GenerationBrackets(limit: int, env: Environment, actions: seq<Action>, a: nat, b: nat)
    requires limit >= 1 && a <= b < |actions|
    requires var r, q := ResponseAt(limit, env, actions, a), ResponseAt(limit, env, actions, b);
             r.Some? && q.Some? && Carries(r.value) && Carries(q.value) && r.value.generation == q.value.generation
    ensures var m, log := |LogAt(limit, env, actions, a)|, LogAt(limit, env, actions, b);
            && 1 <= m <= |log|
            && (forall k :: m <= k < |log| ==> Quiet(log[k - 1], log[k]))
            && log[m - 1].info == log[|log| - 1].info && log[m - 1].count <= log[|log| - 1].count
    ensures var r, q := ResponseAt(limit, env, actions, a).value, ResponseAt(limit, env, actions, b).value;
            r.StatusIs? && q.StatusIs? ==> r.info == q.info && r.count <= q.count
  {
    hide Run, ResponseAt, Quiet;
    ResponseTells(limit, env, actions, a);
    ResponseTells(limit, env, actions, b);
    RunGrows(limit, env, actions[..b + 1], a + 1);
    assert actions[..b + 1][..a + 1] == actions[..a + 1];
    RunKeeps(limit, env, actions[..b + 1]);
    var m, log := |LogAt(limit, env, actions, a)|, LogAt(limit, env, actions, b);
    assert log[m - 1] == LogAt(limit, env, actions, a)[m - 1];
    SameGenerationIsQuiet(log, m - 1, |log| - 1);
  }
}
