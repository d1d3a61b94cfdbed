/** The segment walk of internal/timemachine/normalize.go, as it mutates its state,
    proved to compute the reference report. */
module TraceNormalizer {

  import opened Prelude
  import opened TraceDecoder
  import opened TraceCapture
  import opened TraceReference

  /** An observation with its attribution filled in. */
  function Marked(o: Observation, attribution: (Option<Context>, Evidence)): Observation {
    o.(context := attribution.0, evidence := attribution.1)
  }

  /** A run that has failed stays failed. */
  lemma {:induction false} RunFails(m: Machine, os: seq<Observation>, i: nat, n: nat)
    requires i <= n <= |os| && PairableStacks(m.stacks)
    requires Run(m, os, i).Err?
    ensures Run(m, os, n) == Run(m, os, i)
  {
    if i < n {
      RunFails(m, os, i, n - 1);
    }
  }

  /** The reference step over a packet inside a segment, from the state in which the
      walk reaches it: already entered at the first packet, plain afterwards. */
  lemma SegmentStep(m0: Machine, os: seq<Observation>, i: nat, m: Machine, reached: Machine)
    requires i < |os| && PairableStacks(m0.stacks) && Run(m0, os, i) == Ok(m)
    requires !Boundary(os[i].packet) && PairableStacks(reached.stacks)
    requires if i == 0 || Boundary(os[i - 1].packet)
             then EnterSegment(AdvanceClock(m, os[i]), os[i]) == Ok(reached)
             else reached == m
    ensures !PacketBarrier(os[i].packet) && PairableStacks(AdvanceClock(reached, os[i]).stacks)
    ensures Run(m0, os, i + 1) == InSegment(AdvanceClock(reached, os[i]), os[i])
  {
  }

  /** The reference step over a boundary, whose own attribution plays no part in it. */
  lemma BoundaryStep(m0: Machine, os: seq<Observation>, i: nat, m: Machine, o: Observation)
    requires i < |os| && PairableStacks(m0.stacks) && Run(m0, os, i) == Ok(m)
    requires Boundary(os[i].packet) && o == os[i].(context := o.context, evidence := o.evidence)
    ensures Run(m0, os, i + 1) == Ok(PassBoundary(AdvanceClock(m, o), o))
  {
  }

  /** A segment that cannot be entered fails the run. */
  lemma SegmentRefused(m0: Machine, os: seq<Observation>, i: nat, m: Machine)
    requires i < |os| && PairableStacks(m0.stacks) && Run(m0, os, i) == Ok(m)
    requires !Boundary(os[i].packet) && (i == 0 || Boundary(os[i - 1].packet))
    requires EnterSegment(AdvanceClock(m, os[i]), os[i]).Err?
    ensures Run(m0, os, |os|) == EnterSegment(AdvanceClock(m, os[i]), os[i])
  {
    assert Run(m0, os, i + 1) == EnterSegment(AdvanceClock(m, os[i]), os[i]) by {
      hide EnterSegment, InSegment, PassBoundary;
    }
    hide Run, EnterSegment, AdvanceClock;
    RunFails(m0, os, i + 1, |os|);
  }

  class Normalizer {
    var observations: seq<Observation>
    var stacks: Stacks
    var contexts: set<Context>
    var open: int
    var epoch: nat
    var spans: seq<Span>
    var discontinuities: seq<Discontinuity>
    var stats: Statistics

    ghost function Model(): Machine
      reads this
    {
      Machine(stacks, contexts, open, epoch, spans, discontinuities, stats)
    }

    constructor ()
      ensures Model() == INITIAL_MACHINE && observations == []
    {
      observations, stacks, contexts, open, epoch := [], map[], {}, 0, 0;
      spans, discontinuities, stats := [], [], NO_STATISTICS;
    }

    method Barrier(generation: u64, index: u64, reason: Reason)
      modifies this`discontinuities, this`stats, this`open, this`stacks
      ensures Model() == TraceReference.Barrier(old(Model()), generation, index, reason)
    {
      discontinuities := discontinuities + [Discontinuity(generation, epoch, index, reason)];
      stats := stats.(invalidatedOpenFrames := stats.invalidatedOpenFrames + open);
      open := 0;
      stacks := map[];
    }

    method AdvanceClock(o: Observation)
      modifies this`discontinuities, this`stats, this`open, this`stacks, this`epoch
      ensures Model() == TraceReference.AdvanceClock(old(Model()), o)
    {
      if o.clockEpoch != epoch {
        epoch := o.clockEpoch;
        Barrier(o.generation, o.index, ClockRegression);
      }
    }

    /** normalizer.function */
    method FunctionEvent(o: Observation) returns (failure: Option<LimitError>)
      requires Pairable(o) && PairableStacks(stacks)
      modifies this`discontinuities, this`stats, this`open, this`stacks, this`spans
      ensures match PairEvent(old(Model()), o)
              case Ok(m) => failure.None? && Model() == m
              case Err(e) => failure == Some(e)
    {
      var c := o.context.value;
      var stack := if c in stacks then stacks[c] else [];
      if o.packet.function_.value == Entry {
        if open >= MAX_OPEN_FRAMES || |stack| >= MAX_CONTEXT_DEPTH {
          return Some(OpenFunctionLimit);
        }
        stacks := stacks[c := stack + [o]];
        open := open + 1;
        return None;
      }
      if |stack| == 0 {
        stats := stats.(unmatchedExits := stats.unmatchedExits + 1);
        return None;
      }
      var entry := stack[|stack| - 1];
      if entry.packet.address != o.packet.address {
        stats := stats.(mismatchedExits := stats.mismatchedExits + 1);
        Barrier(o.generation, o.index, FunctionExitMismatch);
        return None;
      }
      var start := entry.timestamp.value.value.value;
      var end := o.timestamp.value.value.value;
      if start > end {
        stats := stats.(clockRegressions := stats.clockRegressions + 1);
        Barrier(o.generation, o.index, FunctionClockRegression);
        return None;
      }
      var evidence := [entry.evidence];
      if o.evidence != entry.evidence {
        var later := entry.evidence.Rank() < o.evidence.Rank();
        evidence := if later then evidence + [o.evidence] else [o.evidence] + evidence;
      }
      assert evidence == SpanEvidence(entry.evidence, o.evidence);
      spans := spans + [Span(o.generation, o.clockEpoch, entry.index, o.index, entry.packet.address, c, evidence,
                             start, end, end - start, entry.timestamp.value.unit,
                             entry.timestamp.value.rawTag, o.timestamp.value.rawTag, |stack| - 1)];
      stacks := stacks[c := stack[..|stack| - 1]];
      open := open - 1;
      return None;
    }

    /** The attribution a segment's two markers give it. */
    method Attribute(forward: Option<Context>, evidence: Evidence, backward: Option<Context>)
      returns (context: Option<Context>, found: Evidence, conflict: bool)
      requires !evidence.Conflict()
      ensures (context, found) == Combine((forward, evidence), backward)
      ensures conflict == found.Conflict() && (conflict ==> context.None?)
    {
      var forward, evidence := forward, evidence;
      if !Known(forward) {
        forward, evidence := None, Unavailable;
      }
      context, found, conflict := forward, evidence, false;
      if backward.Some? {
        if !Known(backward) {
          context, found := None, Unavailable;
        } else if forward.Some? && forward.value != backward.value {
          context, conflict := None, true;
          found := if evidence == OperatorDeclared then ConflictingDeclaredAndNative else ConflictingNative;
        } else {
          context := backward;
          found := if forward.None? then NativePreviousPid
          else if evidence == OperatorDeclared then OperatorDeclaredAndPreviousPid
          else NativePidAndPreviousPid;
        }
      }
    }

    /** The start of a nonempty segment whose first packet is o. */
    method Enter(o: Observation, context: Option<Context>, conflict: bool) returns (failure: Option<LimitError>)
      requires o.context == context && conflict == o.evidence.Conflict()
      requires conflict ==> context.None?
      modifies this`discontinuities, this`stats, this`open, this`stacks, this`contexts, this`epoch
      ensures match EnterSegment(TraceReference.AdvanceClock(old(Model()), o), o)
              case Ok(m) => failure.None? && Model() == m
              case Err(e) => failure == Some(e)
      ensures PairableStacks(old(stacks)) ==> PairableStacks(stacks)
    {
      AdvanceClock(o);
      if conflict {
        stats := stats.(attributionConflicts := stats.attributionConflicts + 1);
        Barrier(o.generation, o.index, AttributionConflict);
      }
      if context.None? && open > 0 {
        Barrier(o.generation, o.index, UnknownContext);
      }
      if context.Some? && context.value !in contexts {
        if |contexts| >= MAX_CONTEXTS {
          return Some(ContextLimit);
        }
        contexts := contexts + {context.value};
      }
      return None;
    }

    /** A boundary packet, after the segment before it. */
    method Cross(o: Observation)
      requires Boundary(o.packet)
      modifies this`discontinuities, this`stats, this`open, this`stacks, this`epoch
      ensures Model() == PassBoundary(TraceReference.AdvanceClock(old(Model()), o), o)
    {
      AdvanceClock(o);
      var packet := o.packet;
      if PacketBarrier(packet) {
        var reason := UnknownPacket;
        if packet.event.Some? {
          reason := EventReason(packet.event.value.name);
        } else if packet.function_.Some? {
          reason := UnknownFunctionEvent;
          stats := stats.(unknownFunctionEvents := stats.unknownFunctionEvents + 1);
        }
        Barrier(o.generation, o.index, reason);
      }
    }

    /** One packet inside a segment, once its context is settled. */
    method Pass(o: Observation) returns (failure: Option<LimitError>)
      requires !PacketBarrier(o.packet) && PairableStacks(stacks)
      modifies this`discontinuities, this`stats, this`open, this`stacks, this`spans, this`epoch
      ensures match InSegment(TraceReference.AdvanceClock(old(Model()), o), o)
              case Ok(m) => failure.None? && Model() == m
              case Err(e) => failure == Some(e)
      ensures failure.None? ==> PairableStacks(stacks)
    {
      if o.context.None? {
        stats := stats.(unattributedPackets := stats.unattributedPackets + 1);
      }
      AdvanceClock(o);
      assert Model() == CountUnattributed(TraceReference.AdvanceClock(old(Model()), o), o);
      if o.packet.function_.None? {
        return None;
      }
      if o.timestamp.None? || o.timestamp.value.value.None? {
        stats := stats.(unknownClockEvents := stats.unknownClockEvents + 1);
        Barrier(o.generation, o.index, UnknownFunctionClock);
        return None;
      }
      if o.context.None? {
        Barrier(o.generation, o.index, UnknownFunctionContext);
        return None;
      }
      failure := FunctionEvent(o);
    }

    /** normalizer.segment: attributes the unmarked packets [start, end) and pairs their
        function events. os are the generation's attributed observations, base is where
        they start, and m0 is the state that generation started in. */
    method Segment(start: nat, end: nat, forward: Option<Context>, evidence: Evidence, backward: Option<Context>,
                   ghost base: nat, ghost m0: Machine, ghost os: seq<Observation>)
      returns (failure: Option<LimitError>)
      requires base <= start <= end <= base + |os| == |observations|
      requires !evidence.Conflict()
      requires PairableStacks(m0.stacks) && Run(m0, os, start - base) == Ok(Model())
      requires start == base || Boundary(os[start - base - 1].packet)
      requires forall k :: start - base <= k < end - base ==> !Boundary(os[k].packet)
      requires forall i :: start <= i < end ==>
                             os[i - base] == Marked(observations[i], Combine((forward, evidence), backward))
      modifies this
      ensures failure.None? ==> Run(m0, os, end - base) == Ok(Model())
      ensures failure.Some? ==> Run(m0, os, |os|) == Err(failure.value)
      ensures |observations| == |old(observations)|
      ensures failure.None? ==> forall i :: start <= i < end ==> observations[i] == os[i - base]
      ensures forall i :: 0 <= i < |observations| && !(start <= i < end) ==> observations[i] == old(observations[i])
    {
      hide Run, EnterSegment, InSegment, TraceReference.AdvanceClock, Combine, Boundary, PacketBarrier, PairableStacks;
      var context, found, conflict := Attribute(forward, evidence, backward);
      failure := None;
      ghost var m := Model();
      if start < end {
        var first := observations[start].(context := context, evidence := found);
        assert first == os[start - base];
        failure := Enter(first, context, conflict);
        if failure.Some? {
          SegmentRefused(m0, os, start - base, m);
          return;
        }
      }
      for i := start to end
        invariant failure.None? && |observations| == |old(observations)|
        invariant forall j :: start <= j < i ==> observations[j] == os[j - base]
        invariant forall j :: 0 <= j < |observations| && !(start <= j < i) ==> observations[j] == old(observations[j])
        invariant Run(m0, os, i - base) == Ok(m) && PairableStacks(stacks)
        invariant if i == start < end
          then EnterSegment(TraceReference.AdvanceClock(m, os[start - base]), os[start - base]) == Ok(Model())
          else Model() == m
      {
        observations := observations[i := observations[i].(context := context, evidence := found)];
        var o := observations[i];
        assert o == os[i - base];
        SegmentStep(m0, os, i - base, m, Model());
        failure := Pass(o);
        if failure.Some? {
          RunFails(m0, os, i - base + 1, |os|);
          return;
        }
        m := Model();
      }
    }

    /** normalizer.generation: walks the packets ps observed from base on, cutting them
        into segments at the boundaries, and computes the reference run over them. */
    method Generation(base: nat, initial: Option<Context>, ghost g: Generation, ghost ps: seq<Packet>, ghost info: Info)
      returns (failure: Option<LimitError>)
      requires g.firstIndex + |ps| <= 0x1_0000_0000_0000_0000
      requires forall i :: 0 <= i < |ps| ==> WellFormed(ps[i])
      requires base <= |observations| && observations[base..] == Stamped(g, ps, info)
      requires PairableStacks(stacks)
      modifies this
      ensures match Run(old(Model()), Observations(g, ps, info, initial), |ps|)
              case Ok(m) => failure.None? && Model() == m
              case Err(e) => failure == Some(e)
      ensures failure.None? ==> observations == old(observations)[..base] + Observations(g, ps, info, initial)
    {
      hide Run, Attribution, Forward, Boundary, Combine, PassBoundary;
      hide TraceReference.AdvanceClock, PairableStacks, WellFormed;
      hide Stamped, Observations, Partial;
      ghost var m0, prefix := Model(), observations[..base];
      ghost var os, raw := Observations(g, ps, info, initial), Stamped(g, ps, info);
      ObservedPackets(g, ps, info, initial);
      StartFacts(m0, os, ps, initial);
      PartialStart(observations, prefix, os, raw);
      var end := |observations|;
      var segmentStart := base;
      var current, evidence := initial, OperatorDeclared;
      for index := base to end
        invariant |observations| == end == base + |os| && base <= segmentStart <= index
        invariant observations == Partial(prefix, os, raw, segmentStart - base)
        invariant segmentStart == base || Boundary(ps[segmentStart - base - 1])
        invariant forall i :: segmentStart - base <= i < index - base ==> !Boundary(ps[i])
        invariant (current, evidence) == Forward(ps, initial, segmentStart - base) && !evidence.Conflict()
        invariant Run(m0, os, segmentStart - base) == Ok(Model())
      {
        PartialAt(prefix, os, raw, segmentStart - base);
        if Boundary(observations[index].packet) {
          failure, current, evidence := EndSegment(segmentStart, index, current, evidence, base, initial, g, ps, info,
                                                   m0, prefix);
          if failure.Some? { return; }
          segmentStart := index + 1;
        }
      }
      ghost var seen := observations;
      PartialAt(prefix, os, raw, segmentStart - base);
      SegmentAttribution(g, ps, info, initial, segmentStart - base, |ps|);
      failure := Segment(segmentStart, end, current, evidence, None, base, m0, os);
      if failure.None? {
        PartialGrows(seen, observations, prefix, os, raw, segmentStart - base, |os|);
        PartialEnd(prefix, os, raw);
      }
    }

    /** The boundary at index: the segment before it, then the boundary itself. */
    method EndSegment(start: nat, index: nat, forward: Option<Context>, evidence: Evidence,
                      ghost base: nat, ghost initial: Option<Context>, ghost g: Generation, ghost ps: seq<Packet>,
                      ghost info: Info, ghost m0: Machine, ghost prefix: seq<Observation>)
      returns (failure: Option<LimitError>, current: Option<Context>, found: Evidence)
      requires g.firstIndex + |ps| <= 0x1_0000_0000_0000_0000
      requires base == |prefix| <= start <= index < base + |ps| == |observations|
      requires observations == Partial(prefix, Observations(g, ps, info, initial), Stamped(g, ps, info), start - base)
      requires start == base || Boundary(ps[start - base - 1])
      requires forall i :: start - base <= i < index - base ==> !Boundary(ps[i])
      requires Boundary(ps[index - base]) && WellFormed(ps[index - base])
      requires (forward, evidence) == Forward(ps, initial, start - base) && !evidence.Conflict()
      requires PairableStacks(m0.stacks) && Run(m0, Observations(g, ps, info, initial), start - base) == Ok(Model())
      modifies this
      ensures |observations| == |old(observations)|
      ensures var os := Observations(g, ps, info, initial);
              if failure.Some? then Run(m0, os, |os|) == Err(failure.value)
              else
                && Run(m0, os, index + 1 - base) == Ok(Model())
                && observations == Partial(prefix, os, Stamped(g, ps, info), index + 1 - base)
                && (current, found) == Forward(ps, initial, index + 1 - base) && !found.Conflict()
    {
      hide Run, Attribution, Forward, Boundary, Combine, PassBoundary;
      hide TraceReference.AdvanceClock, PairableStacks, WellFormed;
      hide Stamped, Observations, Partial;
      ghost var os, raw, seen := Observations(g, ps, info, initial), Stamped(g, ps, info), observations;
      ObservedPackets(g, ps, info, initial);
      PartialAt(prefix, os, raw, start - base);
      current, found := None, Unavailable;
      var o := observations[index];
      SegmentAttribution(g, ps, info, initial, start - base, index - base);
      failure := Segment(start, index, forward, evidence,
                         if o.packet.kind == PreviousPid then o.packet.context else None, base, m0, os);
      if failure.Some? { return; }
      BoundaryStep(m0, os, index - base, Model(), o);
      Cross(o);
      current, found := Mark(index, o, base, os, ps, initial);
      PartialGrows(seen, observations, prefix, os, raw, start - base, index + 1 - base);
    }

    /** A marker's own attribution, and what it says of the packets after it. */
    method Mark(index: nat, o: Observation, ghost base: nat, ghost os: seq<Observation>, ghost ps: seq<Packet>,
                ghost initial: Option<Context>)
      returns (current: Option<Context>, evidence: Evidence)
      requires base <= index < |observations| && |os| == |ps| && index - base < |ps|
      requires observations[index] == o && o.context.None? && o.evidence == Unavailable
      requires var i := index - base;
               o.packet == ps[i] && Boundary(ps[i]) && os[i] == Marked(o, Attribution(ps, initial, i))
      modifies this`observations
      ensures observations == old(observations)[index := os[index - base]]
      ensures (current, evidence) == Forward(ps, initial, index - base + 1) && !evidence.Conflict()
    {
      var packet := o.packet;
      if packet.kind == Pid {
        current, evidence := packet.context, NativePid;
        observations := observations[index := o.(context := current, evidence := NativePidForFollowing)];
      } else if packet.kind == PreviousPid {
        observations := observations[index := o.(context := packet.context, evidence := NativePreviousPidForPreceding)];
        current, evidence := None, Unavailable;
      } else {
        current, evidence := None, Unavailable;
      }
    }
  }

  /** The observations once the first k of a generation are attributed. */
  ghost function Partial(prefix: seq<Observation>, os: seq<Observation>, raw: seq<Observation>,
                         k: nat): seq<Observation>
    requires k <= |os| == |raw|
  {
    prefix + os[..k] + raw[k..]
  }

  lemma PartialStart(all: seq<Observation>, prefix: seq<Observation>, os: seq<Observation>, raw: seq<Observation>)
    requires |os| == |raw| && |prefix| <= |all| && all[..|prefix|] == prefix && all[|prefix|..] == raw
    ensures all == Partial(prefix, os, raw, 0)
  {
  }

  lemma PartialAt(prefix: seq<Observation>, os: seq<Observation>, raw: seq<Observation>, k: nat)
    requires k <= |os| == |raw|
    ensures var all := Partial(prefix, os, raw, k);
            && |all| == |prefix| + |raw|
            && forall i :: |prefix| + k <= i < |all| ==> all[i] == raw[i - |prefix|]
  {
  }

  lemma PartialGrows(before: seq<Observation>, after: seq<Observation>, prefix: seq<Observation>,
                     os: seq<Observation>, raw: seq<Observation>, k: nat, n: nat)
    requires k <= n <= |os| == |raw| && before == Partial(prefix, os, raw, k) && |after| == |before|
    requires forall i :: |prefix| + k <= i < |prefix| + n ==> after[i] == os[i - |prefix|]
    requires forall i :: 0 <= i < |after| && !(|prefix| + k <= i < |prefix| + n) ==> after[i] == before[i]
    ensures after == Partial(prefix, os, raw, n)
  {
  }

  lemma PartialEnd(prefix: seq<Observation>, os: seq<Observation>, raw: seq<Observation>)
    requires |os| == |raw|
    ensures Partial(prefix, os, raw, |os|) == prefix + os
  {
  }

  lemma StartFacts(m: Machine, os: seq<Observation>, ps: seq<Packet>, declared: Option<Context>)
    requires PairableStacks(m.stacks)
    ensures Run(m, os, 0) == Ok(m)
    ensures Forward(ps, declared, 0) == (declared, OperatorDeclared)
  {
  }

  /** Stamped and attributed observations differ only in their attribution. */
  lemma ObservedPackets(g: Generation, ps: seq<Packet>, info: Info, declared: Option<Context>)
    requires g.firstIndex + |ps| <= 0x1_0000_0000_0000_0000
    ensures var raw, os := Stamped(g, ps, info), Observations(g, ps, info, declared);
            && |raw| == |os| == |ps|
            && forall i :: 0 <= i < |ps| ==>
                             && os[i] == Marked(raw[i], Attribution(ps, declared, i))
                             && raw[i].packet == ps[i] == os[i].packet && raw[i].context.None?
                             && raw[i].evidence == Unavailable
  {
  }

  /** Between two boundaries every packet is attributed alike, by those boundaries. */
  lemma SegmentAttribution(g: Generation, ps: seq<Packet>, info: Info, declared: Option<Context>, start: nat, end: nat)
    requires g.firstIndex + |ps| <= 0x1_0000_0000_0000_0000
    requires start <= end <= |ps|
    requires start == 0 || Boundary(ps[start - 1])
    requires end == |ps| || Boundary(ps[end])
    requires forall i :: start <= i < end ==> !Boundary(ps[i])
    ensures var backward := if end < |ps| && ps[end].kind == PreviousPid then ps[end].context else None;
            forall i :: start <= i < end ==>
                          Observations(g, ps, info, declared)[i]
                          == Marked(Stamped(g, ps, info)[i], Combine(Forward(ps, declared, start), backward))
  {
    forall i | start <= i < end
      ensures PreviousBoundary(ps, i) == start - 1 && NextBoundary(ps, i) == end
    {
      BoundariesAround(ps, start, i, end);
    }
  }

  lemma {:induction false} BoundariesAround(ps: seq<Packet>, start: nat, i: nat, end: nat)
    requires start <= i < end <= |ps|
    requires start == 0 || Boundary(ps[start - 1])
    requires end == |ps| || Boundary(ps[end])
    requires forall j :: start <= j < end ==> !Boundary(ps[j])
    ensures PreviousBoundary(ps, i) == start - 1
    ensures NextBoundary(ps, i) == end
  {
    var j := i;
    while j > start
      invariant start <= j <= i
      invariant PreviousBoundary(ps, i) == PreviousBoundary(ps, j)
    {
      j := j - 1;
    }
    j := i;
    while j < end
      invariant i <= j <= end
      invariant NextBoundary(ps, i) == NextBoundary(ps, j)
    {
      j := j + 1;
    }
  }

  datatype NormalizeError = InvalidCapture(capture: CaptureError) | LimitExceeded(limit: LimitError)

  /** Normalize: the reference report of a valid capture, or the limit it exceeds. */
  method Normalize(c: Capture) returns (r: Result<Report, NormalizeError>)
    ensures forall profile, info :: ValidCapture(c, profile, info) ==>
                                      match Normalized(c, profile, info)
                                      case Ok(report) => r == Ok(report)
                                      case Err(limit) => r == Err(LimitExceeded(limit))
    ensures (forall profile, info :: !ValidCapture(c, profile, info)) ==> r.Err? && r.error.InvalidCapture?
  {
    var validated := ValidateCapture(c);
    if validated.Err? {
      return Err(InvalidCapture(validated.error));
    }
    var (profile, info) := validated.value;
    r := NormalizeValid(c, profile, info);
  }

  method NormalizeValid(c: Capture, profile: Profile, info: Info) returns (r: Result<Report, NormalizeError>)
    requires ValidCapture(c, profile, info)
    ensures match Normalized(c, profile, info)
            case Ok(report) => r == Ok(report)
            case Err(limit) => r == Err(LimitExceeded(limit))
  {
    hide RunGenerations, Entering, GenerationObservations, Run, EndGeneration, AllObservations, ValidGenerations;
    var n := new Normalizer();
    var gs := c.generations;
    NoGenerations(c, profile, info);
    for k := 0 to |gs|
      invariant fresh(n) && n.stacks == map[]
      invariant RunGenerations(c, profile, info, k) == Ok(n.Model())
      invariant n.observations == AllObservations(c, profile, info, k)
    {
      GenerationStep(c, profile, info, k, n.Model());
      var failure := NormalizeGeneration(n, c, profile, info, k);
      if failure.Some? {
        GenerationsFail(c, profile, info, k + 1, |gs|);
        return Err(LimitExceeded(failure.value));
      }
    }
    n.stats := n.stats.(completedFunctionSpans := |n.spans|);
    return Ok(Report(info, n.observations, n.spans, n.discontinuities, n.stats));
  }

  lemma {:induction false} GenerationsFail(c: Capture, profile: Profile, info: Info, i: nat, n: nat)
    requires i <= n <= |c.generations| && ValidGenerations(profile, c.generations)
    requires RunGenerations(c, profile, info, i).Err?
    ensures RunGenerations(c, profile, info, n) == RunGenerations(c, profile, info, i)
  {
    hide Run, Entering, GenerationObservations, ValidGeneration, EndGeneration;
    if i < n {
      GenerationsFail(c, profile, info, i, n - 1);
    }
  }

  /** One generation: decode and stamp its packets, then walk them. */
  method NormalizeGeneration(n: Normalizer, c: Capture, profile: Profile, info: Info, k: nat)
    returns (failure: Option<LimitError>)
    requires k < |c.generations| && ValidGeneration(profile, c.generations[k])
    requires n.stacks == map[]
    modifies n
    ensures var os := GenerationObservations(c, profile, info, k);
            match Run(Entering(old(n.Model()), c, profile, k), os, |os|)
            case Ok(m) => && failure.None?
                          && n.Model() == EndGeneration(m)
                          && n.observations == old(n.observations) + os
            case Err(e) => failure == Some(e)
    ensures n.stacks == map[]
  {
    hide Run, CountPackets, Observations, Stamped, WellFormed;
    var g := c.generations[k];
    n.stats := n.stats.(generations := n.stats.generations + 1, clockEpochs := n.stats.clockEpochs + 1);
    n.epoch := 1;
    if k > 0 || g.reason != "initial" || g.firstIndex != 0 {
      n.Barrier(g.id, g.firstIndex, GenerationReason(g.reason));
    }
    assert n.Model() == StartGeneration(old(n.Model()), g, k);
    var start := |n.observations|;
    Stamp(n, g, profile, info);
    var declared := if k == 0 && g.reason == "initial" then c.initialContext else None;
    failure := n.Generation(start, declared, g, Decoded(profile, g.packets), info);
    n.stats := n.stats.(unfinishedFrames := n.stats.unfinishedFrames + n.open);
    n.stacks := map[];
    n.open := 0;
  }

  /** The first pass over a generation: decoding, clock epochs and packet counts. */
  method Stamp(n: Normalizer, g: Generation, profile: Profile, info: Info)
    requires ValidGeneration(profile, g)
    modifies n`observations, n`stats
    ensures var ps := Decoded(profile, g.packets);
            && n.observations == old(n.observations) + Stamped(g, ps, info)
            && n.stats == CountPackets(old(n.stats), ps, |ps|)
  {
    hide DecodePacket, WellFormed, CountPacket, NormalizeTimestamp, KnownReason;
    ghost var ps := Decoded(profile, g.packets);
    ghost var stamped := Stamped(g, ps, info);
    ghost var seen := n.observations;
    var lastTag: Option<int> := None;
    var clockEpoch: nat := 1;
    for i := 0 to |g.packets|
      invariant lastTag == LastTag(ps, i)
      invariant clockEpoch == if i == 0 then 1 else Epoch(ps, i - 1)
      invariant n.stats == CountPackets(old(n.stats), ps, i)
      invariant n.observations == seen + stamped[..i]
    {
      var packet := DecodePacket(profile, g.packets[i]).value;
      assert packet == ps[i];
      var timestamp := None;
      var regresses := false;
      if packet.tag.Some? {
        timestamp := Some(NormalizeTimestamp(packet.tag.value, info));
        if lastTag.Some? && packet.tag.value < lastTag.value {
          clockEpoch := clockEpoch + 1;
          regresses := true;
        }
        lastTag := packet.tag;
      }
      var o := Observation(g.id, clockEpoch, g.firstIndex + i, packet, timestamp, None, Unavailable);
      assert stamped[..i + 1] == stamped[..i] + [o];
      n.observations := n.observations + [o];
      CountInto(n, packet, regresses);
    }
    assert stamped[..|g.packets|] == stamped;
  }

  method CountInto(n: Normalizer, packet: Packet, regresses: bool)
    modifies n`stats
    ensures n.stats == CountPacket(old(n.stats), packet, regresses)
  {
    if regresses {
      n.stats := n.stats.(clockRegressions := n.stats.clockRegressions + 1, clockEpochs := n.stats.clockEpochs + 1);
    }
    n.stats := n.stats.(packets := n.stats.packets + 1);
    if packet.kind == Unknown {
      n.stats := n.stats.(unknownPackets := n.stats.unknownPackets + 1);
    }
    if packet.event.Some? && !packet.event.value.known {
      n.stats := n.stats.(unknownEvents := n.stats.unknownEvents + 1);
    }
  }
}
