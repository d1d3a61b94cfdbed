/** The theorems about whole captures: what every report of Normalize satisfies. */
module TraceSoundness {

  import opened Prelude
  import opened TraceDecoder
  import opened TraceCapture
  import opened TraceReference
  import opened TraceStructure
  import opened TraceBudget

  /** s pairs an entry and an exit observed in generation k of the capture. */
  ghost predicate SpanFrom(c: Capture, profile: Profile, info: Info, k: nat, s: Span)
    requires k < |c.generations| && ValidGeneration(profile, c.generations[k])
  {
    var os := GenerationObservations(c, profile, info, k);
    s.generation == c.generations[k].id && SpanOfPair(c.generations[k], os, |os|, s)
  }

  ghost predicate SpansFrom(c: Capture, profile: Profile, info: Info, n: nat, spans: seq<Span>)
    requires n <= |c.generations| && ValidGenerations(profile, c.generations)
  {
    forall s :: s in spans ==> exists k :: 0 <= k < n && SpanFrom(c, profile, info, k, s)
  }

  /** The discontinuities belong to the first n generations, and none is a function whose
      exit precedes its entry. */
  ghost predicate BreaksFrom(gs: seq<Generation>, n: nat, ds: seq<Discontinuity>)
    requires n <= |gs|
  {
    forall d :: d in ds ==> n > 0 && d.generation <= gs[n - 1].id && d.reason != FunctionClockRegression
  }

  predicate CountsAgree(gs: seq<Generation>, n: nat, m: Machine)
    requires n <= |gs|
  {
    && m.stats.packets == PacketTotal(gs, n) && m.stats.generations == n
    && m.stats.clockEpochs == n + m.stats.clockRegressions
    && 0 <= m.stats.clockRegressions <= PacketTotal(gs, n)
    && |m.discontinuities| <= n + PacketTotal(gs, n) + m.stats.clockRegressions
  }

  /** What holds after n generations. */
  ghost predicate Sound(c: Capture, profile: Profile, info: Info, n: nat, m: Machine)
    requires n <= |c.generations| && ValidGenerations(profile, c.generations)
  {
    var os := AllObservations(c, profile, info, n);
    && m.stacks == map[] && m.open == 0
    && SpansFrom(c, profile, info, n, m.spans)
    && BreaksFrom(c.generations, n, m.discontinuities)
    && WellNested(m.spans) && NoneStraddles(m.spans, m.discontinuities)
    && Balanced(m, Events(os, |os|, Entry), Events(os, |os|, Exit))
    && CountsAgree(c.generations, n, m)
  }

  // ---------- Entering a generation ----------

  lemma {:induction false} CountPacketsEffect(s: Statistics, ps: seq<Packet>, n: nat)
    requires n <= |ps|
    ensures var r := CountPackets(s, ps, n);
            var regressions := if n == 0 then 0 else Epoch(ps, n - 1) - 1;
            && r == s.(packets := s.packets + n, clockRegressions := s.clockRegressions + regressions,
                    clockEpochs := s.clockEpochs + regressions, unknownPackets := r.unknownPackets,
                    unknownEvents := r.unknownEvents)
            && 0 <= regressions <= n
  {
    if n > 0 {
      CountPacketsEffect(s, ps, n - 1);
    }
  }

  lemma EnteringStructured(c: Capture, profile: Profile, info: Info, k: nat, m: Machine)
    requires k < |c.generations| && ValidGenerations(profile, c.generations)
    requires Sound(c, profile, info, k, m)
    ensures var os := GenerationObservations(c, profile, info, k);
            var m' := Entering(m, c, profile, k);
            && Structured(c.generations[k], os, 0, m.spans, m')
            && m'.epoch == 1 && m'.stacks == map[] && m'.open == 0 && m'.spans == m.spans
  {
    hide Balanced, GenerationObservations, CountPackets, AllObservations, CountsAgree, SpanOfPair, ValidGeneration;
    var g := c.generations[k];
    var m' := Entering(m, c, profile, k);
    assert forall s :: s in m.spans ==> s.generation < g.id;
    assert forall d :: d in m.discontinuities ==> d.generation < g.id;
    var d := Discontinuity(g.id, 1, g.firstIndex, GenerationReason(g.reason));
    assert m'.discontinuities == m.discontinuities || m'.discontinuities == m.discontinuities + [d];
  }

  lemma EnteringBalanced(c: Capture, profile: Profile, k: nat, m: Machine, entries: int, exits: int)
    requires k < |c.generations| && ValidGenerations(profile, c.generations)
    requires Balanced(m, entries, exits) && m.open == 0 && m.stacks == map[]
    ensures Balanced(Entering(m, c, profile, k), entries, exits)
  {
    var g := c.generations[k];
    CountPacketsEffect(StartGeneration(m, g, k).stats, Decoded(profile, g.packets), |g.packets|);
  }

  // ---------- Leaving a generation ----------

  lemma {:induction false} EventsAppend(a: seq<Observation>, b: seq<Observation>, n: nat, kind: FunctionKind)
    requires n <= |b|
    ensures Events(a + b, |a| + n, kind) == Events(a, |a|, kind) + Events(b, n, kind)
  {
    if n == 0 {
      EventsPrefix(a, a + b, |a|, kind);
    } else {
      EventsAppend(a, b, n - 1, kind);
    }
  }

  lemma {:induction false} EventsPrefix(a: seq<Observation>, b: seq<Observation>, n: nat, kind: FunctionKind)
    requires n <= |a| <= |b| && b[..|a|] == a
    ensures Events(b, n, kind) == Events(a, n, kind)
  {
    if n > 0 {
      EventsPrefix(a, b, n - 1, kind);
      assert b[n - 1] == b[..|a|][n - 1];
    }
  }

  lemma SpansStayFrom(c: Capture, profile: Profile, info: Info, k: nat, m: Machine, m': Machine)
    requires k < |c.generations| && ValidGenerations(profile, c.generations)
    requires SpansFrom(c, profile, info, k, m.spans) && BreaksFrom(c.generations, k, m.discontinuities)
    requires var os := GenerationObservations(c, profile, info, k);
             Structured(c.generations[k], os, |os|, m.spans, m')
    ensures SpansFrom(c, profile, info, k + 1, m'.spans) && BreaksFrom(c.generations, k + 1, m'.discontinuities)
  {
    hide GenerationObservations, SpanOfPair, ValidGeneration, Frames, SpansInside, FramesAfterBarriers, NoneStraddles;
    hide WellNested;
    forall s | s in m'.spans
      ensures exists j :: 0 <= j < k + 1 && SpanFrom(c, profile, info, j, s)
    {
      if s.generation == c.generations[k].id {
        assert SpanFrom(c, profile, info, k, s);
      } else {
        assert s in m.spans;
      }
    }
  }

  lemma CountsStayAgreed(c: Capture, profile: Profile, info: Info, k: nat, m: Machine, m': Machine)
    requires k < |c.generations| && ValidGenerations(profile, c.generations)
    requires CountsAgree(c.generations, k, m) && m.open == 0
    requires var os := GenerationObservations(c, profile, info, k);
             && SameTally(Entering(m, c, profile, k), m')
             && Spent(m') <= Spent(Entering(m, c, profile, k)) + |os| + (EpochBefore(os, |os|) - 1) + Pending(os, |os|)
             && Chronicle(c.generations[k], os) && m'.open >= 0
    ensures CountsAgree(c.generations, k + 1, EndGeneration(m'))
  {
    hide WellFormed, Attribution, CountPackets, Epoch;
    var g := c.generations[k];
    var ps := Decoded(profile, g.packets);
    var os := GenerationObservations(c, profile, info, k);
    CountPacketsEffect(StartGeneration(m, g, k).stats, ps, |ps|);
    assert Pending(os, |os|) == 0;
    assert |os| > 0 ==> os[|os| - 1].clockEpoch == Epoch(ps, |ps| - 1);
  }

  lemma GenerationSound(c: Capture, profile: Profile, info: Info, k: nat, m: Machine, m': Machine)
    requires k < |c.generations| && ValidGenerations(profile, c.generations)
    requires Sound(c, profile, info, k, m)
    requires var os := GenerationObservations(c, profile, info, k); Run(Entering(m, c, profile, k), os, |os|) == Ok(m')
    ensures Sound(c, profile, info, k + 1, EndGeneration(m'))
  {
    hide Run, Entering, GenerationObservations, Chronicle, ValidGeneration, Spent, CountsAgree, SpansFrom, BreaksFrom;
    var g := c.generations[k];
    var os := GenerationObservations(c, profile, info, k);
    var all := AllObservations(c, profile, info, k);
    var m1 := Entering(m, c, profile, k);
    GenerationChronicle(c, profile, info, k);
    EnteringStructured(c, profile, info, k, m);
    EnteringBalanced(c, profile, k, m, Events(all, |all|, Entry), Events(all, |all|, Exit));
    RunKeepsStructure(g, os, |os|, m.spans, m1);
    RunBalanced(g, os, |os|, m.spans, m1, Events(all, |all|, Entry), Events(all, |all|, Exit));
    EventsAppend(all, os, |os|, Entry);
    EventsAppend(all, os, |os|, Exit);
    SpansStayFrom(c, profile, info, k, m, m');
    CountsStayAgreed(c, profile, info, k, m, m');
  }

  lemma GenerationChronicle(c: Capture, profile: Profile, info: Info, k: nat)
    requires k < |c.generations| && ValidGenerations(profile, c.generations)
    ensures Chronicle(c.generations[k], GenerationObservations(c, profile, info, k))
  {
    hide Chronicle, Observations;
    var g := c.generations[k];
    ObservationsAreChronicle(g, Decoded(profile, g.packets), info, DeclaredFor(c, k));
  }

  lemma {:induction false} GenerationsSound(c: Capture, profile: Profile, info: Info, n: nat)
    requires n <= |c.generations| && ValidGenerations(profile, c.generations)
    requires RunGenerations(c, profile, info, n).Ok?
    ensures Sound(c, profile, info, n, RunGenerations(c, profile, info, n).value)
  {
    hide Sound, Run, Entering, GenerationObservations, ValidGeneration;
    if n == 0 {
      NothingSound(c, profile, info);
    } else {
      GenerationsSound(c, profile, info, n - 1);
      var m := RunGenerations(c, profile, info, n - 1).value;
      GenerationStep(c, profile, info, n - 1, m);
      var os := GenerationObservations(c, profile, info, n - 1);
      GenerationSound(c, profile, info, n - 1, m, Run(Entering(m, c, profile, n - 1), os, |os|).value);
    }
  }

  lemma NothingSound(c: Capture, profile: Profile, info: Info)
    requires ValidGenerations(profile, c.generations)
    ensures Sound(c, profile, info, 0, INITIAL_MACHINE)
  {
    hide ValidGeneration;
    assert AllObservations(c, profile, info, 0) == [];
  }

  // ---------- The theorems ----------

  /** Every span joins an entry and an exit of one generation, clock epoch, task and
      address, with end >= start; spans of one task are disjoint or nested with the inner
      one deeper; and no span straddles a discontinuity. */
  lemma ReportSpans(c: Capture, profile: Profile, info: Info)
    requires ValidCapture(c, profile, info) && Normalized(c, profile, info).Ok?
    ensures var r := Normalized(c, profile, info).value;
            && SpansFrom(c, profile, info, |c.generations|, r.spans)
            && WellNested(r.spans)
            && NoneStraddles(r.spans, r.discontinuities)
  {
    GenerationsSound(c, profile, info, |c.generations|);
  }

  /** No function event is lost: entries are completed, invalidated or unfinished; exits
      complete a span, are unmatched or mismatched. */
  lemma ReportConservesEvents(c: Capture, profile: Profile, info: Info)
    requires ValidCapture(c, profile, info) && Normalized(c, profile, info).Ok?
    ensures var r := Normalized(c, profile, info).value;
            && r.stats.completedFunctionSpans == |r.spans| <= |r.observations|
            && Events(r.observations, |r.observations|, Entry)
               == |r.spans| + r.stats.invalidatedOpenFrames + r.stats.unfinishedFrames
            && Events(r.observations, |r.observations|, Exit)
               == |r.spans| + r.stats.unmatchedExits + r.stats.mismatchedExits
  {
    GenerationsSound(c, profile, info, |c.generations|);
    var os := AllObservations(c, profile, info, |c.generations|);
    EventsBound(os, |os|, Entry);
  }

  lemma {:induction false} EventsBound(os: seq<Observation>, n: nat, kind: FunctionKind)
    requires n <= |os|
    ensures Events(os, n, kind) <= n
  {
    if n > 0 {
      EventsBound(os, n - 1, kind);
    }
  }

  lemma {:induction false} ObservationTotal(c: Capture, profile: Profile, info: Info, n: nat)
    requires n <= |c.generations| && ValidGenerations(profile, c.generations)
    ensures |AllObservations(c, profile, info, n)| == PacketTotal(c.generations, n)
  {
    if n > 0 {
      ObservationTotal(c, profile, info, n - 1);
    }
  }

  /** At most two discontinuities per packet and one per generation, so the limit that
      the Chrome export checks cannot reject a normalizer report. Clock epochs are the
      generations plus the regressions, and no regression is found while pairing. */
  lemma ReportBudget(c: Capture, profile: Profile, info: Info)
    requires ValidCapture(c, profile, info) && Normalized(c, profile, info).Ok?
    ensures var r := Normalized(c, profile, info).value;
            && |r.discontinuities| <= |r.observations| + r.stats.clockRegressions + |c.generations|
            && r.stats.clockRegressions <= |r.observations| == r.stats.packets
            && |r.discontinuities| <= 2 * MAX_CAPTURE_PACKETS + MAX_GENERATIONS
            && r.stats.generations == |c.generations|
            && r.stats.clockEpochs == r.stats.generations + r.stats.clockRegressions
            && forall d :: d in r.discontinuities ==> d.reason != FunctionClockRegression
  {
    GenerationsSound(c, profile, info, |c.generations|);
    ObservationTotal(c, profile, info, |c.generations|);
  }

  // ---------- Attribution ----------

  /** said is what the nearest marker or barrier before packet i says of it: a PID its context, a
      barrier or a previous-PID nothing, and if there is none, what was declared. */
  ghost predicate SaidBefore(ps: seq<Packet>, declared: Option<Context>, i: nat, said: Option<Context>)
    requires i < |ps|
  {
    || (said == declared && forall k :: 0 <= k < i ==> !Boundary(ps[k]))
    || exists j :: 0 <= j < i && Boundary(ps[j]) && (forall k :: j < k < i ==> !Boundary(ps[k]))
                   && said == if ps[j].kind == Pid then ps[j].context else None
  }

  /** said is what the nearest marker or barrier after packet i says of it: only a previous-PID
      says anything. */
  ghost predicate SaidAfter(ps: seq<Packet>, i: nat, said: Option<Context>)
    requires i < |ps|
  {
    || (said == None && forall k :: i < k < |ps| ==> !Boundary(ps[k]))
    || exists j :: i < j < |ps| && Boundary(ps[j]) && (forall k :: i < k < j ==> !Boundary(ps[k]))
                   && said == if ps[j].kind == PreviousPid then ps[j].context else None
  }

  lemma {:induction false} ObservationAt(c: Capture, profile: Profile, info: Info, n: nat, k: nat, i: nat)
    requires k < n <= |c.generations| && ValidGenerations(profile, c.generations) && i < |c.generations[k].packets|
    ensures var os, j := AllObservations(c, profile, info, n), PacketTotal(c.generations, k) + i;
            j < |os| && os[j] == GenerationObservations(c, profile, info, k)[i]
  {
    hide GenerationObservations;
    ObservationTotal(c, profile, info, n - 1);
    GenerationCount(c, profile, info, n - 1);
    if k < n - 1 { ObservationAt(c, profile, info, n - 1, k, i); }
  }

  lemma GenerationCount(c: Capture, profile: Profile, info: Info, k: nat)
    requires k < |c.generations| && ValidGenerations(profile, c.generations)
    ensures |GenerationObservations(c, profile, info, k)| == |c.generations[k].packets|
  {
    hide Observations;
  }

  /** The rule that decides the context: agreement of both sides or the only known one; an unknown
      previous PID or a conflict gives none. */
  function Decided(before: Option<Context>, after: Option<Context>): Option<Context> {
    if after.None? then (if Known(before) then before else None)
    else if !Known(after) || (Known(before) && before != after) then None
    else after
  }

  /** Where that context comes from: the declaration or a PID before the packet, a previous-PID after
      it, both, or two that contradict each other. */
  function Witness(before: Option<Context>, after: Option<Context>, declared: bool): Evidence {
    if Known(before) && Known(after) && before != after then
      if declared then ConflictingDeclaredAndNative else ConflictingNative
    else if Known(before) && Known(after) then
      if declared then OperatorDeclaredAndPreviousPid else NativePidAndPreviousPid
    else if Known(after) then NativePreviousPid
    else if Known(before) && after.None? then (if declared then OperatorDeclared else NativePid)
    else Unavailable
  }

  /** No marker or barrier stands before packet i, so that a declaration reaches it. */
  ghost predicate Reaches(ps: seq<Packet>, i: nat)
    requires i < |ps|
  {
    forall k :: 0 <= k < i ==> !Boundary(ps[k])
  }

  /** What a marker or barrier says of itself. */
  predicate OwnAttribution(p: Packet, context: Option<Context>, evidence: Evidence) {
    if p.kind == Pid then context == p.context && evidence == NativePidForFollowing
    else if p.kind == PreviousPid then context == p.context && evidence == NativePreviousPidForPreceding
    else context.None? && evidence == Unavailable
  }

  /** The rule, for one list of packets. */
  lemma PacketAttribution(ps: seq<Packet>, declared: Option<Context>, i: nat)
    returns (before: Option<Context>, after: Option<Context>)
    requires i < |ps|
    ensures SaidBefore(ps, declared, i, before) && SaidAfter(ps, i, after)
    ensures var a := Attribution(ps, declared, i);
            if Boundary(ps[i]) then OwnAttribution(ps[i], a.0, a.1)
            else a.0 == Decided(before, after) && a.1 == Witness(before, after, Reaches(ps, i))
  {
    assert !Known(None);
    hide Known, PacketBarrier;
    before, after := Forward(ps, declared, i).0, Backward(ps, i + 1);
    var j, n := PreviousBoundary(ps, i), NextBoundary(ps, i + 1);
    assert !Boundary(ps[i]) ==> NextBoundary(ps, i) == n;
    hide PreviousBoundary, NextBoundary, Boundary;
  }

  /** Every packet of every generation in its place in the report; the context of the unmarked ones and
      where it comes from: what its nearest neighbours on both sides say, by the rule. */
  lemma ReportAttribution(c: Capture, profile: Profile, info: Info, k: nat, i: nat)
    returns (before: Option<Context>, after: Option<Context>)
    requires ValidCapture(c, profile, info) && Normalized(c, profile, info).Ok?
    requires k < |c.generations| && i < |c.generations[k].packets|
    ensures var g := c.generations[k];
            var ps, os := Decoded(profile, g.packets), Normalized(c, profile, info).value.observations;
            var j := PacketTotal(c.generations, k) + i;
            && j < |os| && os[j].generation == g.id && os[j].index == g.firstIndex + i && os[j].packet == ps[i]
            && SaidBefore(ps, DeclaredFor(c, k), i, before) && SaidAfter(ps, i, after)
            && if Boundary(ps[i]) then OwnAttribution(ps[i], os[j].context, os[j].evidence)
               else os[j].context == Decided(before, after) && os[j].evidence == Witness(before, after, Reaches(ps, i))
  {
    hide RunGenerations, ValidGenerations, ValidGeneration, AllObservations;
    hide Known, Attribution, SaidBefore, SaidAfter, Boundary, Witness, Decided, Reaches, OwnAttribution;
    ObservationAt(c, profile, info, |c.generations|, k, i);
    GenerationIsValid(c.generations, profile, k);
    before, after := PacketAttribution(Decoded(profile, c.generations[k].packets), DeclaredFor(c, k), i);
  }

  lemma GenerationIsValid(gs: seq<Generation>, profile: Profile, k: nat)
    requires ValidGenerations(profile, gs) && k < |gs|
    ensures ValidGeneration(profile, gs[k])
  {
  }
}
