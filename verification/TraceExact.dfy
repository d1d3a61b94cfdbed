/** Reports, exactly: every span, every discontinuity, every counter and every refusal of Normalize is
    the one that counting over the observations calls for, and no other. */
module TraceExact {

  import opened Prelude
  import opened TraceDecoder
  import opened TraceCapture
  import opened TraceReference
  import opened TraceStructure
  import opened TraceBudget
  import opened TraceSoundness
  import opened TracePairing
  import opened TraceAccount

  // ---------- Generations ----------

  ghost predicate ValidK(c: Capture, profile: Profile, k: nat) {
    k < |c.generations| && ValidGenerations(profile, c.generations)
  }

  /** The discontinuity a generation starts with, unless it is the first of an unbroken trace. */
  function StartBreak(g: Generation, k: nat): seq<Discontinuity> {
    if k > 0 || g.reason != "initial" || g.firstIndex != 0
    then [Discontinuity(g.id, 1, g.firstIndex, GenerationReason(g.reason))] else []
  }

  ghost function GenerationBreaks(c: Capture, profile: Profile, info: Info, k: nat): seq<Discontinuity>
    requires ValidK(c, profile, k)
  {
    var g, os := c.generations[k], GenerationObservations(c, profile, info, k);
    StartBreak(g, k) + AllBreaks(g, os, |os|)
  }

  ghost function GenerationSpans(c: Capture, profile: Profile, info: Info, k: nat): seq<Span>
    requires ValidK(c, profile, k)
  {
    var os := GenerationObservations(c, profile, info, k);
    AllSpans(c.generations[k], os, |os|)
  }

  /** The discontinuities that the first n generations call for. */
  ghost function BreaksOf(c: Capture, profile: Profile, info: Info, n: nat): seq<Discontinuity>
    requires n <= |c.generations| && ValidGenerations(profile, c.generations)
  {
    if n == 0 then [] else BreaksOf(c, profile, info, n - 1) + GenerationBreaks(c, profile, info, n - 1)
  }

  ghost function SpansOf(c: Capture, profile: Profile, info: Info, n: nat): seq<Span>
    requires n <= |c.generations| && ValidGenerations(profile, c.generations)
  {
    if n == 0 then [] else SpansOf(c, profile, info, n - 1) + GenerationSpans(c, profile, info, n - 1)
  }

  /** The tasks met in the first n generations. */
  ghost function TasksOf(c: Capture, profile: Profile, info: Info, n: nat): set<Context>
    requires n <= |c.generations| && ValidGenerations(profile, c.generations)
  {
    if n == 0 then {}
    else
      var os := GenerationObservations(c, profile, info, n - 1);
      Tasks(os, |os|, TasksOf(c, profile, info, n - 1))
  }

  /** No packet of generation k exceeds a limit. */
  ghost predicate WithinLimits(c: Capture, profile: Profile, info: Info, k: nat)
    requires ValidK(c, profile, k)
  {
    var os := GenerationObservations(c, profile, info, k);
    NoneExceeds(c.generations[k], os, |os|, TasksOf(c, profile, info, k))
  }

  // ---------- Entering a generation ----------

  lemma ObservationDecided(g: Generation, ps: seq<Packet>, info: Info, declared: Option<Context>, i: nat)
    requires g.firstIndex + |ps| <= 0x1_0000_0000_0000_0000 && i < |ps|
    ensures Undisputed(Observations(g, ps, info, declared)[i])
  {
    hide PreviousBoundary, NextBoundary, PacketBarrier, Epoch;
  }

  lemma GenerationDecided(c: Capture, profile: Profile, info: Info, k: nat)
    requires ValidK(c, profile, k)
    ensures forall i :: 0 <= i < |GenerationObservations(c, profile, info, k)| ==>
                          Undisputed(GenerationObservations(c, profile, info, k)[i])
  {
    hide Observations, Undisputed;
    var g, os := c.generations[k], GenerationObservations(c, profile, info, k);
    forall i | 0 <= i < |os| ensures Undisputed(os[i]) {
      ObservationDecided(g, Decoded(profile, g.packets), info, DeclaredFor(c, k), i);
    }
  }

  lemma EnteringStarts(c: Capture, profile: Profile, info: Info, k: nat, m: Machine)
    requires ValidK(c, profile, k) && Sound(c, profile, info, k, m)
    ensures Starts(c.generations[k], GenerationObservations(c, profile, info, k), m.spans, Entering(m, c, profile, k))
  {
    hide GenerationObservations, Sound, Chronicle, Structured, Entering, ValidGenerations, Undisputed;
    GenerationIsValid(c.generations, profile, k);
    GenerationDecided(c, profile, info, k);
    GenerationChronicle(c, profile, info, k);
    EnteringStructured(c, profile, info, k, m);
  }

  lemma EnteringIs(c: Capture, profile: Profile, k: nat, m: Machine)
    requires ValidK(c, profile, k)
    requires m.open == 0 && m.stacks == map[]
    ensures var m', g := Entering(m, c, profile, k), c.generations[k];
            && m'.discontinuities == m.discontinuities + StartBreak(g, k) && m'.spans == m.spans
            && m'.contexts == m.contexts
            && m'.stats == CountPackets(m.stats.(generations := m.stats.generations + 1,
                                        clockEpochs := m.stats.clockEpochs + 1),
                                        Decoded(profile, g.packets), |g.packets|)
  {
    hide CountPackets;
    assert m.discontinuities + [] == m.discontinuities;
  }

  // ---------- Statistics ----------

  /** What is counted over the packets themselves, before any pairing. */
  datatype Tally = Tally(unknownPackets: int, unknownEvents: int, regressions: int)

  function TallyOf(os: seq<Observation>, n: nat): Tally
    requires n <= |os|
  {
    if n == 0 then Tally(0, 0, 0)
    else
      var t, o := TallyOf(os, n - 1), os[n - 1];
      Tally(t.unknownPackets + One(o.packet.kind == Unknown),
            t.unknownEvents + One(o.packet.event.Some? && !o.packet.event.value.known),
            t.regressions + One(n > 1 && o.clockEpoch != os[n - 2].clockEpoch))
  }

  function Tallied(s: Statistics, n: nat, t: Tally): Statistics {
    s.(generations := s.generations + 1, packets := s.packets + n,
    unknownPackets := s.unknownPackets + t.unknownPackets, unknownEvents := s.unknownEvents + t.unknownEvents,
    clockRegressions := s.clockRegressions + t.regressions, clockEpochs := s.clockEpochs + 1 + t.regressions)
  }

  /** The statistics after one more generation. */
  ghost function GenerationStats(c: Capture, profile: Profile, info: Info, k: nat, s: Statistics): Statistics
    requires ValidK(c, profile, k)
  {
    var g, os := c.generations[k], GenerationObservations(c, profile, info, k);
    var counted := Noted(Tallied(s, |os|, TallyOf(os, |os|)), AllNotes(g, os, |os|));
    counted.(unfinishedFrames := counted.unfinishedFrames + |OpenAfter(g, os, |os|)|)
  }

  ghost function StatsOf(c: Capture, profile: Profile, info: Info, n: nat): Statistics
    requires n <= |c.generations| && ValidGenerations(profile, c.generations)
  {
    if n == 0 then NO_STATISTICS else GenerationStats(c, profile, info, n - 1, StatsOf(c, profile, info, n - 1))
  }

  lemma {:induction false} CountIsTally(s: Statistics, g: Generation, ps: seq<Packet>, info: Info,
                                        declared: Option<Context>, n: nat)
    requires n <= |ps| && g.firstIndex + |ps| <= 0x1_0000_0000_0000_0000
    ensures var t, r := TallyOf(Observations(g, ps, info, declared), n), CountPackets(s, ps, n);
            r == s.(packets := s.packets + n, unknownPackets := s.unknownPackets + t.unknownPackets,
            unknownEvents := s.unknownEvents + t.unknownEvents,
            clockRegressions := s.clockRegressions + t.regressions, clockEpochs := s.clockEpochs + t.regressions)
  {
    hide Attribution, Regresses;
    if n > 0 {
      CountIsTally(s, g, ps, info, declared, n - 1);
      EpochStep(ps, n - 1);
    }
  }

  lemma EpochStep(ps: seq<Packet>, i: nat)
    requires i < |ps|
    ensures i > 0 ==> Epoch(ps, i) == Epoch(ps, i - 1) + if Regresses(ps, i) then 1 else 0
    ensures i == 0 ==> !Regresses(ps, i)
  {
  }

  lemma EnteringTallied(c: Capture, profile: Profile, info: Info, k: nat, m: Machine)
    requires ValidK(c, profile, k) && m.open == 0 && m.stacks == map[]
    ensures var os := GenerationObservations(c, profile, info, k);
            Entering(m, c, profile, k).stats == Tallied(m.stats, |os|, TallyOf(os, |os|))
  {
    hide CountPackets, TallyOf, Entering, Observations;
    var g := c.generations[k];
    EnteringIs(c, profile, k, m);
    CountIsTally(m.stats.(generations := m.stats.generations + 1, clockEpochs := m.stats.clockEpochs + 1), g,
                 Decoded(profile, g.packets), info, DeclaredFor(c, k), |g.packets|);
  }

  // ---------- All generations ----------

  /** The machine after n generations is what counting says. */
  ghost predicate Exact(c: Capture, profile: Profile, info: Info, n: nat, m: Machine)
    requires n <= |c.generations| && ValidGenerations(profile, c.generations)
  {
    && m.discontinuities == BreaksOf(c, profile, info, n) && m.spans == SpansOf(c, profile, info, n)
    && m.contexts == TasksOf(c, profile, info, n) && m.stats == StatsOf(c, profile, info, n)
  }

  lemma EndIs(m: Machine)
    ensures var m' := EndGeneration(m);
            && m'.discontinuities == m.discontinuities && m'.spans == m.spans && m'.contexts == m.contexts
            && m'.stats == m.stats.(unfinishedFrames := m.stats.unfinishedFrames + m.open)
  {
  }

  /** What one generation adds. */
  lemma GenerationAdds(c: Capture, profile: Profile, info: Info, k: nat, m: Machine, m': Machine)
    requires ValidK(c, profile, k) && Sound(c, profile, info, k, m) && m.open == 0 && m.stacks == map[]
    requires PairableStacks(Entering(m, c, profile, k).stacks)
    requires var os := GenerationObservations(c, profile, info, k); Run(Entering(m, c, profile, k), os, |os|) == Ok(m')
    ensures var e := EndGeneration(m');
            && e.discontinuities == m.discontinuities + GenerationBreaks(c, profile, info, k)
            && e.spans == m.spans + GenerationSpans(c, profile, info, k)
  {
    hide GenerationObservations, Sound, Entering, Run, ValidGenerations, AllBreaks, AllSpans, StartBreak, EndGeneration;
    hide Chronicle, Structured, Undisputed, PairableStacks, Agrees;
    GenerationIsValid(c.generations, profile, k);
    var g, os := c.generations[k], GenerationObservations(c, profile, info, k);
    var m0 := Entering(m, c, profile, k);
    EnteringStarts(c, profile, info, k, m);
    EnteringIs(c, profile, k, m);
    RunAgrees(g, os, |os|, m.spans, m0);
    AgreesIs(g, os, |os|, m0, m');
    Regroup(m.discontinuities, StartBreak(g, k), AllBreaks(g, os, |os|));
    EndIs(m');
  }

  lemma Regroup(a: seq<Discontinuity>, b: seq<Discontinuity>, c: seq<Discontinuity>)
    ensures a + b + c == a + (b + c)
  {
  }

  lemma AgreesIs(g: Generation, os: seq<Observation>, n: nat, m0: Machine, m: Machine)
    requires n <= |os| && Agrees(g, os, n, m0, m)
    ensures m.discontinuities == m0.discontinuities + AllBreaks(g, os, n)
    ensures m.spans == m0.spans + AllSpans(g, os, n)
  {
    hide OpenAfter, AllBreaks, AllSpans, Holds;
  }

  lemma GenerationCounts(c: Capture, profile: Profile, info: Info, k: nat, m: Machine, m': Machine)
    requires ValidK(c, profile, k) && Sound(c, profile, info, k, m) && m.open == 0 && m.stacks == map[]
    requires PairableStacks(Entering(m, c, profile, k).stacks)
    requires var os := GenerationObservations(c, profile, info, k); Run(Entering(m, c, profile, k), os, |os|) == Ok(m')
    ensures var e, os := EndGeneration(m'), GenerationObservations(c, profile, info, k);
            && e.contexts == Tasks(os, |os|, m.contexts)
            && e.stats == GenerationStats(c, profile, info, k, m.stats)
  {
    hide GenerationObservations, Sound, Entering, Run, ValidGenerations, AllNotes, TallyOf, Tallied, Tasks, Noted;
    hide EndGeneration, Chronicle, Structured, Undisputed, OpenAfter, PairableStacks, NoneExceeds, FirstExceeds, Agrees;
    GenerationIsValid(c.generations, profile, k);
    var g, os := c.generations[k], GenerationObservations(c, profile, info, k);
    var m0 := Entering(m, c, profile, k);
    EnteringStarts(c, profile, info, k, m);
    EnteringIs(c, profile, k, m);
    EnteringTallied(c, profile, info, k, m);
    RunAgrees(g, os, |os|, m.spans, m0);
    RunLimits(g, os, |os|, m.spans, m0);
    RunNotes(g, os, |os|, m.spans, m0);
    EndIs(m');
    AgreesOpen(g, os, |os|, m0, m');
  }

  lemma GenerationExact(c: Capture, profile: Profile, info: Info, k: nat, m: Machine, m': Machine)
    requires ValidK(c, profile, k) && Sound(c, profile, info, k, m) && m.open == 0 && m.stacks == map[]
    requires Exact(c, profile, info, k, m) && PairableStacks(Entering(m, c, profile, k).stacks)
    requires var os := GenerationObservations(c, profile, info, k); Run(Entering(m, c, profile, k), os, |os|) == Ok(m')
    ensures Exact(c, profile, info, k + 1, EndGeneration(m'))
  {
    hide GenerationObservations, Sound, Entering, Run, ValidGenerations, GenerationBreaks, GenerationSpans, Tasks;
    hide EndGeneration, PairableStacks, GenerationStats;
    GenerationAdds(c, profile, info, k, m, m');
    GenerationCounts(c, profile, info, k, m, m');
  }

  lemma AgreesOpen(g: Generation, os: seq<Observation>, n: nat, m0: Machine, m: Machine)
    requires n <= |os| && Agrees(g, os, n, m0, m)
    ensures m.open == |OpenAfter(g, os, n)|
  {
    hide OpenAfter, AllBreaks, AllSpans, Lists;
  }

  /** The first limit exceeded, generation by generation. */
  ghost predicate FirstLimit(c: Capture, profile: Profile, info: Info, k: nat, limit: LimitError)
    requires ValidGenerations(profile, c.generations)
  {
    && k < |c.generations| && (forall j: nat :: j < k ==> WithinLimits(c, profile, info, j))
    && exists i :: FirstExceeds(c.generations[k], GenerationObservations(c, profile, info, k), i,
                                TasksOf(c, profile, info, k), limit)
  }

  lemma GenerationLimits(c: Capture, profile: Profile, info: Info, k: nat, m: Machine)
    requires ValidK(c, profile, k) && Sound(c, profile, info, k, m) && Exact(c, profile, info, k, m)
    requires m.open == 0 && m.stacks == map[] && PairableStacks(Entering(m, c, profile, k).stacks)
    ensures var os := GenerationObservations(c, profile, info, k);
            var r := Run(Entering(m, c, profile, k), os, |os|);
            && (r.Ok? <==> WithinLimits(c, profile, info, k))
            && (r.Err? ==> exists i :: FirstExceeds(c.generations[k], os, i, TasksOf(c, profile, info, k), r.error))
  {
    hide GenerationObservations, Sound, Entering, Run, ValidGenerations, BreaksOf, SpansOf, StatsOf, Tasks, Exceeds;
    hide Starts, PairableStacks, TasksOf, FirstExceeds, NoneExceeds;
    GenerationIsValid(c.generations, profile, k);
    var g, os := c.generations[k], GenerationObservations(c, profile, info, k);
    var m0 := Entering(m, c, profile, k);
    EnteringStarts(c, profile, info, k, m);
    EnteringIs(c, profile, k, m);
    RunLimits(g, os, |os|, m.spans, m0);
  }

  lemma SoundStacks(c: Capture, profile: Profile, info: Info, k: nat, m: Machine)
    requires ValidK(c, profile, k) && Sound(c, profile, info, k, m)
    ensures m.open == 0 && m.stacks == map[] && PairableStacks(Entering(m, c, profile, k).stacks)
  {
    hide CountPackets, Balanced, WellNested, NoneStraddles, SpansFrom, BreaksFrom, CountsAgree;
  }

  lemma {:induction false} GenerationsExact(c: Capture, profile: Profile, info: Info, n: nat)
    requires n <= |c.generations| && ValidGenerations(profile, c.generations)
    ensures var r := RunGenerations(c, profile, info, n);
            && (r.Ok? <==> forall k: nat :: k < n ==> WithinLimits(c, profile, info, k))
            && (r.Ok? ==> Exact(c, profile, info, n, r.value))
            && (r.Err? ==> exists k: nat :: k < n && FirstLimit(c, profile, info, k, r.error))
  {
    hide GenerationObservations, Sound, Entering, Run;
    hide ValidGenerations, WithinLimits, Exact, FirstExceeds, EndGeneration;
    hide RunGenerations;
    if n == 0 {
      NothingExact(c, profile, info);
    } else {
      GenerationsExact(c, profile, info, n - 1);
      if RunGenerations(c, profile, info, n - 1).Ok? {
        var m := RunGenerations(c, profile, info, n - 1).value;
        GenerationsSound(c, profile, info, n - 1);
        SoundStacks(c, profile, info, n - 1, m);
        GenerationLimits(c, profile, info, n - 1, m);
        GenerationStep(c, profile, info, n - 1, m);
        var os := GenerationObservations(c, profile, info, n - 1);
        var r := Run(Entering(m, c, profile, n - 1), os, |os|);
        if r.Ok? {
          GenerationExact(c, profile, info, n - 1, m, r.value);
        } else {
          assert FirstLimit(c, profile, info, n - 1, r.error);
        }
      } else {
        var k: nat :| k < n - 1 && FirstLimit(c, profile, info, k, RunGenerations(c, profile, info, n - 1).error);
        RefusalStays(c, profile, info, n - 1);
        assert !WithinLimits(c, profile, info, k)
        by { LimitExceeded(c, profile, info, k, RunGenerations(c, profile, info, n - 1).error); }
      }
    }
  }

  lemma LimitExceeded(c: Capture, profile: Profile, info: Info, k: nat, limit: LimitError)
    requires ValidGenerations(profile, c.generations) && FirstLimit(c, profile, info, k, limit)
    ensures !WithinLimits(c, profile, info, k)
  {
    hide GenerationObservations, ValidGenerations, Exceeds, TasksOf;
    GenerationIsValid(c.generations, profile, k);
    var os := GenerationObservations(c, profile, info, k);
    var i :| FirstExceeds(c.generations[k], os, i, TasksOf(c, profile, info, k), limit);
  }

  lemma RefusalStays(c: Capture, profile: Profile, info: Info, k: nat)
    requires ValidK(c, profile, k) && RunGenerations(c, profile, info, k).Err?
    ensures RunGenerations(c, profile, info, k + 1) == RunGenerations(c, profile, info, k)
  {
  }

  lemma NothingExact(c: Capture, profile: Profile, info: Info)
    requires ValidGenerations(profile, c.generations)
    ensures RunGenerations(c, profile, info, 0).Ok?
            && Exact(c, profile, info, 0, RunGenerations(c, profile, info, 0).value)
  {
  }

  /** The theorem: a valid capture is refused exactly if one of its packets exceeds a limit, and with
      the first limit exceeded; otherwise its report holds exactly the spans, the discontinuities and
      the statistics that counting over its observations calls for, in that order. */
  lemma ReportIsExact(c: Capture, profile: Profile, info: Info)
    requires ValidCapture(c, profile, info)
    ensures var n, r := |c.generations|, Normalized(c, profile, info);
            && (r.Ok? <==> forall k: nat :: k < n ==> WithinLimits(c, profile, info, k))
            && (r.Err? ==> exists k: nat :: k < n && FirstLimit(c, profile, info, k, r.error))
            && (r.Ok? ==>
                  && r.value.spans == SpansOf(c, profile, info, n)
                  && r.value.discontinuities == BreaksOf(c, profile, info, n)
                  && r.value.stats == StatsOf(c, profile, info, n).(completedFunctionSpans := |r.value.spans|))
  {
    hide RunGenerations, ValidGenerations, BreaksOf, SpansOf;
    hide StatsOf, TasksOf, WithinLimits, FirstLimit, AllObservations;
    GenerationsExact(c, profile, info, |c.generations|);
  }
}
