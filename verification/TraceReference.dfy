/** A declarative account of trace normalization: every packet is attributed by a
    rule over its nearest boundaries, then one pass pairs function events. It has
    no segments; TraceNormalizer proves that the segment walk computes it. */
module TraceReference {

  import opened Prelude
  import opened TraceDecoder
  import opened TraceCapture

  datatype Timestamp = Timestamp(rawTag: int, value: Option<int>, unit: TimeUnit)

  // The alternatives stand in the alphabetical order of their report texts.
  datatype Evidence =
    | ConflictingDeclaredAndNative
    | ConflictingNative
    | NativePid
    | NativePidAndPreviousPid
    | NativePidForFollowing
    | NativePreviousPid
    | NativePreviousPidForPreceding
    | OperatorDeclared
    | OperatorDeclaredAndPreviousPid
    | Unavailable
  {
    predicate Conflict() { ConflictingDeclaredAndNative? || ConflictingNative? }

    function Rank(): nat {
      match this
      case ConflictingDeclaredAndNative => 0
      case ConflictingNative => 1
      case NativePid => 2
      case NativePidAndPreviousPid => 3
      case NativePidForFollowing => 4
      case NativePreviousPid => 5
      case NativePreviousPidForPreceding => 6
      case OperatorDeclared => 7
      case OperatorDeclaredAndPreviousPid => 8
      case Unavailable => 9
    }
  }

  datatype Observation = Observation(
    generation: u64,
    clockEpoch: nat,
    index: u64,
    packet: Packet,
    timestamp: Option<Timestamp>,
    context: Option<Context>,
    evidence: Evidence)

  datatype Span = Span(
    generation: u64,
    clockEpoch: nat,
    entryIndex: u64,
    exitIndex: u64,
    address: u64,
    context: Context,
    evidence: seq<Evidence>,
    start: int,
    end: int,
    elapsed: int,
    unit: TimeUnit,
    rawStart: int,
    rawEnd: int,
    depth: nat)

  datatype Reason =
    | GenerationReason(reason: string)
    | ClockRegression
    | AttributionConflict
    | UnknownContext
    | UnknownPacket
    | EventReason(name: string)
    | UnknownFunctionEvent
    | UnknownFunctionClock
    | UnknownFunctionContext
    | FunctionExitMismatch
    | FunctionClockRegression

  datatype Discontinuity = Discontinuity(generation: u64, clockEpoch: nat, index: u64, reason: Reason)

  datatype Statistics = Statistics(
    packets: int,
    generations: int,
    unknownPackets: int,
    unknownEvents: int,
    unattributedPackets: int,
    attributionConflicts: int,
    clockRegressions: int,
    clockEpochs: int,
    unknownClockEvents: int,
    unknownFunctionEvents: int,
    unmatchedExits: int,
    mismatchedExits: int,
    invalidatedOpenFrames: int,
    unfinishedFrames: int,
    completedFunctionSpans: int)

  const NO_STATISTICS := Statistics(0, 0, 0, 0, 0, 0, 0, 0, 0, 0, 0, 0, 0, 0, 0)

  datatype LimitError = OpenFunctionLimit | ContextLimit

  // ---------- Clocks ----------

  /** normalizeTimestamp: cycle tags carry eight fractional bits. */
  function NormalizeTimestamp(tag: int, info: Info): Timestamp {
    Timestamp(tag,
              if info.unit == UnknownUnit then None
              else if info.timebase == 2 then Some(tag / 256)
              else Some(tag),
              info.unit)
  }

  /** The last tag among the first n packets. */
  function LastTag(ps: seq<Packet>, n: nat): Option<int>
    requires n <= |ps|
  {
    if n == 0 then None else if ps[n - 1].tag.Some? then ps[n - 1].tag else LastTag(ps, n - 1)
  }

  /** Packet i is tagged earlier than the tagged packet before it. */
  predicate Regresses(ps: seq<Packet>, i: nat)
    requires i < |ps|
  {
    ps[i].tag.Some? && LastTag(ps, i).Some? && ps[i].tag.value < LastTag(ps, i).value
  }

  /** One more than the regressions up to and including packet i. */
  function Epoch(ps: seq<Packet>, i: nat): (e: nat)
    requires i < |ps|
    ensures e >= 1
  {
    (if i == 0 then 1 else Epoch(ps, i - 1)) + (if Regresses(ps, i) then 1 else 0)
  }

  // ---------- Attribution ----------

  predicate PacketBarrier(p: Packet) {
    || p.kind == Unknown
    || (p.event.Some? && p.event.value.discontinuity)
    || (p.function_.Some? && p.function_.value == UnknownFunction)
  }

  /** Packets that end the reach of an attribution. */
  predicate Boundary(p: Packet) {
    p.kind == Pid || p.kind == PreviousPid || PacketBarrier(p)
  }

  /** The nearest boundary strictly before i, or -1. */
  function PreviousBoundary(ps: seq<Packet>, i: nat): (j: int)
    requires i <= |ps|
    ensures -1 <= j < i && (j >= 0 ==> Boundary(ps[j]))
    ensures forall k :: j < k < i ==> !Boundary(ps[k])
  {
    if i == 0 then -1 else if Boundary(ps[i - 1]) then i - 1 else PreviousBoundary(ps, i - 1)
  }

  /** The nearest boundary at or after i, or the end. */
  function NextBoundary(ps: seq<Packet>, i: nat): (j: nat)
    requires i <= |ps|
    ensures i <= j <= |ps| && (j < |ps| ==> Boundary(ps[j]))
    ensures forall k :: i <= k < j ==> !Boundary(ps[k])
    decreases |ps| - i
  {
    if i == |ps| || Boundary(ps[i]) then i else NextBoundary(ps, i + 1)
  }

  /** What the nearest preceding boundary says of the packets after it. */
  function Forward(ps: seq<Packet>, declared: Option<Context>, i: nat): (Option<Context>, Evidence)
    requires i <= |ps|
  {
    var j := PreviousBoundary(ps, i);
    if j == -1 then (declared, OperatorDeclared)
    else if ps[j].kind == Pid then (ps[j].context, NativePid)
    else (None, Unavailable)
  }

  /** What the nearest following boundary says of the packets before it. */
  function Backward(ps: seq<Packet>, i: nat): Option<Context>
    requires i <= |ps|
  {
    var j := NextBoundary(ps, i);
    if j < |ps| && ps[j].kind == PreviousPid then ps[j].context else None
  }

  /** Agreement or a single known side attributes; anything else does not. */
  function Combine(forward: (Option<Context>, Evidence), backward: Option<Context>): (Option<Context>, Evidence) {
    if backward.None? then
      if Known(forward.0) then forward else (None, Unavailable)
    else if !Known(backward) then (None, Unavailable)
    else if !Known(forward.0) then (backward, NativePreviousPid)
    else if forward.0 != backward then
      (None, if forward.1 == OperatorDeclared then ConflictingDeclaredAndNative else ConflictingNative)
    else
      (backward, if forward.1 == OperatorDeclared then OperatorDeclaredAndPreviousPid else NativePidAndPreviousPid)
  }

  function Attribution(ps: seq<Packet>, declared: Option<Context>, i: nat): (Option<Context>, Evidence)
    requires i < |ps|
  {
    if ps[i].kind == Pid then (ps[i].context, NativePidForFollowing)
    else if ps[i].kind == PreviousPid then (ps[i].context, NativePreviousPidForPreceding)
    else if PacketBarrier(ps[i]) then (None, Unavailable)
    else Combine(Forward(ps, declared, i), Backward(ps, i))
  }

  /** The observation before its context is known. */
  function Unattributed(g: Generation, ps: seq<Packet>, info: Info, i: nat): Observation
    requires i < |ps| && g.firstIndex + |ps| <= 0x1_0000_0000_0000_0000
  {
    Observation(g.id, Epoch(ps, i), g.firstIndex + i, ps[i],
                if ps[i].tag.Some? then Some(NormalizeTimestamp(ps[i].tag.value, info)) else None,
                None, Unavailable)
  }

  /** All observations of a generation, stamped with their clocks only. */
  function Stamped(g: Generation, ps: seq<Packet>, info: Info): (os: seq<Observation>)
    requires g.firstIndex + |ps| <= 0x1_0000_0000_0000_0000
    ensures |os| == |ps|
  {
    seq(|ps|, i requires 0 <= i < |ps| => Unattributed(g, ps, info, i))
  }

  function Observe(g: Generation, ps: seq<Packet>, info: Info, declared: Option<Context>, i: nat): Observation
    requires i < |ps| && g.firstIndex + |ps| <= 0x1_0000_0000_0000_0000
  {
    var a := Attribution(ps, declared, i);
    Unattributed(g, ps, info, i).(context := a.0, evidence := a.1)
  }

  /** All observations of a generation, attributed. */
  function Observations(g: Generation, ps: seq<Packet>, info: Info, declared: Option<Context>): (os: seq<Observation>)
    requires g.firstIndex + |ps| <= 0x1_0000_0000_0000_0000
    ensures |os| == |ps|
  {
    seq(|ps|, i requires 0 <= i < |ps| => Observe(g, ps, info, declared, i))
  }

  // ---------- Pairing ----------

  type Stacks = map<Context, seq<Observation>>

  datatype Machine = Machine(
    stacks: Stacks,
    contexts: set<Context>,
    open: int,
    epoch: nat,
    spans: seq<Span>,
    discontinuities: seq<Discontinuity>,
    stats: Statistics)

  const INITIAL_MACHINE := Machine(map[], {}, 0, 0, [], [], NO_STATISTICS)

  function StackOf(stacks: Stacks, c: Context): seq<Observation> {
    if c in stacks then stacks[c] else []
  }

  /** Records a discontinuity and abandons every open frame. */
  function Barrier(m: Machine, generation: u64, index: u64, reason: Reason): Machine {
    m.(discontinuities := m.discontinuities + [Discontinuity(generation, m.epoch, index, reason)],
    stats := m.stats.(invalidatedOpenFrames := m.stats.invalidatedOpenFrames + m.open),
    open := 0,
    stacks := map[])
  }

  function AdvanceClock(m: Machine, o: Observation): Machine {
    if o.clockEpoch == m.epoch then m
    else Barrier(m.(epoch := o.clockEpoch), o.generation, o.index, ClockRegression)
  }

  /** A function event whose task and time are both known. */
  predicate Pairable(o: Observation) {
    && o.packet.function_.Some?
    && o.packet.function_.value != UnknownFunction
    && o.context.Some?
    && o.timestamp.Some?
    && o.timestamp.value.value.Some?
  }

  function SpanOf(entry: Observation, exit: Observation, depth: nat): Span
    requires Pairable(entry) && Pairable(exit)
  {
    var start := entry.timestamp.value.value.value;
    var end := exit.timestamp.value.value.value;
    Span(exit.generation, exit.clockEpoch, entry.index, exit.index, entry.packet.address,
         exit.context.value, SpanEvidence(entry.evidence, exit.evidence), start, end, end - start,
         entry.timestamp.value.unit, entry.timestamp.value.rawTag, exit.timestamp.value.rawTag, depth)
  }

  /** The distinct evidence of both ends, in report order. */
  function SpanEvidence(entry: Evidence, exit: Evidence): seq<Evidence> {
    if entry == exit then [entry] else if entry.Rank() < exit.Rank() then [entry, exit] else [exit, entry]
  }

  predicate PairableStacks(stacks: Stacks) {
    forall c, k :: c in stacks && 0 <= k < |stacks[c]| ==> Pairable(stacks[c][k])
  }

  function PairEvent(m: Machine, o: Observation): (r: Result<Machine, LimitError>)
    requires Pairable(o) && PairableStacks(m.stacks)
    ensures r.Ok? ==> PairableStacks(r.value.stacks)
  {
    var c := o.context.value;
    var stack := StackOf(m.stacks, c);
    if o.packet.function_.value == Entry then
      if m.open >= MAX_OPEN_FRAMES || |stack| >= MAX_CONTEXT_DEPTH then Err(OpenFunctionLimit)
      else Ok(m.(stacks := m.stacks[c := stack + [o]], open := m.open + 1))
    else if stack == [] then
      Ok(m.(stats := m.stats.(unmatchedExits := m.stats.unmatchedExits + 1)))
    else
      var entry := stack[|stack| - 1];
      if entry.packet.address != o.packet.address then
        Ok(Barrier(m.(stats := m.stats.(mismatchedExits := m.stats.mismatchedExits + 1)),
                   o.generation, o.index, FunctionExitMismatch))
      else if entry.timestamp.value.value.value > o.timestamp.value.value.value then
        Ok(Barrier(m.(stats := m.stats.(clockRegressions := m.stats.clockRegressions + 1)),
                   o.generation, o.index, FunctionClockRegression))
      else
        Ok(m.(spans := m.spans + [SpanOf(entry, o, |stack| - 1)],
           stacks := m.stacks[c := stack[..|stack| - 1]],
           open := m.open - 1))
  }

  /** The start of a run of attributed packets: conflict, loss of context, or a context to admit. */
  function EnterSegment(m: Machine, o: Observation): Result<Machine, LimitError> {
    if o.evidence.Conflict() then
      Ok(Barrier(m.(stats := m.stats.(attributionConflicts := m.stats.attributionConflicts + 1)),
                 o.generation, o.index, AttributionConflict))
    else if o.context.None? then
      Ok(if m.open > 0 then Barrier(m, o.generation, o.index, UnknownContext) else m)
    else if o.context.value in m.contexts then Ok(m)
    else if |m.contexts| >= MAX_CONTEXTS then Err(ContextLimit)
    else Ok(m.(contexts := m.contexts + {o.context.value}))
  }

  function PassBoundary(m: Machine, o: Observation): Machine {
    if !PacketBarrier(o.packet) then m
    else if o.packet.event.Some? then Barrier(m, o.generation, o.index, EventReason(o.packet.event.value.name))
    else if o.packet.function_.Some? then
      Barrier(m.(stats := m.stats.(unknownFunctionEvents := m.stats.unknownFunctionEvents + 1)),
              o.generation, o.index, UnknownFunctionEvent)
    else Barrier(m, o.generation, o.index, UnknownPacket)
  }

  function CountUnattributed(m: Machine, o: Observation): Machine {
    if o.context.Some? then m
    else m.(stats := m.stats.(unattributedPackets := m.stats.unattributedPackets + 1))
  }

  /** A packet inside a segment, after the segment was entered. */
  function InSegment(m: Machine, o: Observation): (r: Result<Machine, LimitError>)
    requires !PacketBarrier(o.packet) && PairableStacks(m.stacks)
    ensures r.Ok? ==> PairableStacks(r.value.stacks)
  {
    var m := CountUnattributed(m, o);
    if o.packet.function_.None? then Ok(m)
    else if o.timestamp.None? || o.timestamp.value.value.None? then
      Ok(Barrier(m.(stats := m.stats.(unknownClockEvents := m.stats.unknownClockEvents + 1)),
                 o.generation, o.index, UnknownFunctionClock))
    else if o.context.None? then Ok(Barrier(m, o.generation, o.index, UnknownFunctionContext))
    else PairEvent(m, o)
  }

  /** Packet i, given the state after the packets before it. */
  function Step(m: Machine, os: seq<Observation>, i: nat): (r: Result<Machine, LimitError>)
    requires i < |os| && PairableStacks(m.stacks)
    ensures r.Ok? ==> PairableStacks(r.value.stacks)
  {
    var o := os[i];
    var m := AdvanceClock(m, o);
    if Boundary(o.packet) then Ok(PassBoundary(m, o))
    else if i == 0 || Boundary(os[i - 1].packet) then
      var entered := EnterSegment(m, o);
      if entered.Err? then entered else InSegment(entered.value, o)
    else InSegment(m, o)
  }

  /** The state after the first n packets. */
  function Run(m: Machine, os: seq<Observation>, n: nat): (r: Result<Machine, LimitError>)
    requires n <= |os| && PairableStacks(m.stacks)
    ensures r.Ok? ==> PairableStacks(r.value.stacks)
  {
    if n == 0 then Ok(m)
    else
      var before := Run(m, os, n - 1);
      if before.Err? then before else Step(before.value, os, n - 1)
  }

  // ---------- Generations ----------

  function CountPacket(s: Statistics, p: Packet, regresses: bool): Statistics {
    var regression := if regresses then 1 else 0;
    s.(packets := s.packets + 1,
    unknownPackets := s.unknownPackets + (if p.kind == Unknown then 1 else 0),
    unknownEvents := s.unknownEvents + (if p.event.Some? && !p.event.value.known then 1 else 0),
    clockRegressions := s.clockRegressions + regression,
    clockEpochs := s.clockEpochs + regression)
  }

  function CountPackets(s: Statistics, ps: seq<Packet>, n: nat): Statistics
    requires n <= |ps|
  {
    if n == 0 then s else CountPacket(CountPackets(s, ps, n - 1), ps[n - 1], Regresses(ps, n - 1))
  }

  function StartGeneration(m: Machine, g: Generation, number: nat): Machine {
    var m := m.(stats := m.stats.(generations := m.stats.generations + 1, clockEpochs := m.stats.clockEpochs + 1),
             epoch := 1);
    if number > 0 || g.reason != "initial" || g.firstIndex != 0
    then Barrier(m, g.id, g.firstIndex, GenerationReason(g.reason))
    else m
  }

  /** No frame survives a generation boundary. */
  function EndGeneration(m: Machine): Machine {
    m.(stats := m.stats.(unfinishedFrames := m.stats.unfinishedFrames + m.open), stacks := map[], open := 0)
  }

  /** A declared context counts only for an initial first generation. */
  function DeclaredFor(c: Capture, number: nat): Option<Context>
    requires number < |c.generations|
  {
    if number == 0 && c.generations[0].reason == "initial" then c.initialContext else None
  }

  function GenerationObservations(c: Capture, profile: Profile, info: Info, k: nat): seq<Observation>
    requires k < |c.generations| && ValidGeneration(profile, c.generations[k])
  {
    var g := c.generations[k];
    Observations(g, Decoded(profile, g.packets), info, DeclaredFor(c, k))
  }

  /** The state in which the packets of generation k are paired. */
  function Entering(m: Machine, c: Capture, profile: Profile, k: nat): (m': Machine)
    requires k < |c.generations| && ValidGeneration(profile, c.generations[k])
    ensures m.stacks == map[] ==> m'.stacks == map[]
  {
    var g := c.generations[k];
    var m := StartGeneration(m, g, k);
    m.(stats := CountPackets(m.stats, Decoded(profile, g.packets), |g.packets|))
  }

  /** The state after the first n generations. */
  function RunGenerations(c: Capture, profile: Profile, info: Info, n: nat): (r: Result<Machine, LimitError>)
    requires n <= |c.generations| && ValidGenerations(profile, c.generations)
    ensures r.Ok? ==> r.value.stacks == map[]
  {
    if n == 0 then Ok(INITIAL_MACHINE)
    else
      var before := RunGenerations(c, profile, info, n - 1);
      if before.Err? then before
      else
        var os := GenerationObservations(c, profile, info, n - 1);
        var after := Run(Entering(before.value, c, profile, n - 1), os, |os|);
        if after.Err? then after else Ok(EndGeneration(after.value))
  }

  /** The observations of the first n generations, in order. */
  function AllObservations(c: Capture, profile: Profile, info: Info, n: nat): seq<Observation>
    requires n <= |c.generations| && ValidGenerations(profile, c.generations)
  {
    if n == 0 then []
    else AllObservations(c, profile, info, n - 1) + GenerationObservations(c, profile, info, n - 1)
  }

  lemma NoGenerations(c: Capture, profile: Profile, info: Info)
    requires ValidGenerations(profile, c.generations)
    ensures RunGenerations(c, profile, info, 0) == Ok(INITIAL_MACHINE)
    ensures AllObservations(c, profile, info, 0) == []
  {
  }

  /** One more generation of the reference run. */
  lemma GenerationStep(c: Capture, profile: Profile, info: Info, k: nat, m: Machine)
    requires k < |c.generations| && ValidGenerations(profile, c.generations)
    requires RunGenerations(c, profile, info, k) == Ok(m)
    ensures ValidGeneration(profile, c.generations[k])
    ensures var os := GenerationObservations(c, profile, info, k);
            && RunGenerations(c, profile, info, k + 1)
               == (match Run(Entering(m, c, profile, k), os, |os|)
                   case Ok(after) => Ok(EndGeneration(after))
                   case Err(e) => Err(e))
            && AllObservations(c, profile, info, k + 1) == AllObservations(c, profile, info, k) + os
  {
    hide Run, Entering, GenerationObservations, ValidGeneration;
  }

  datatype Report = Report(
    info: Info,
    observations: seq<Observation>,
    spans: seq<Span>,
    discontinuities: seq<Discontinuity>,
    stats: Statistics)

  function ReportOf(info: Info, observations: seq<Observation>, m: Machine): Report {
    Report(info, observations, m.spans, m.discontinuities, m.stats.(completedFunctionSpans := |m.spans|))
  }

  /** The report a valid capture deserves, or the limit it exceeds. */
  function Normalized(c: Capture, profile: Profile, info: Info): Result<Report, LimitError>
    requires ValidCapture(c, profile, info)
  {
    var n := |c.generations|;
    var m := RunGenerations(c, profile, info, n);
    if m.Err? then Err(m.error) else Ok(ReportOf(info, AllObservations(c, profile, info, n), m.value))
  }
}
