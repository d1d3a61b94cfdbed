/** The rest of what counting decides about a generation: when a limit is exceeded, which tasks are
    known, and every counter of the statistics. */
module TraceAccount {

  import opened Prelude
  import opened TraceDecoder
  import opened TraceCapture
  import opened TraceReference
  import opened TraceStructure
  import opened TraceBudget
  import opened TracePairing

  // ---------- Limits ----------

  /** A segment starts with a task. */
  predicate Introduces(os: seq<Observation>, n: nat)
    requires n < |os|
  {
    StartsSegment(os, n) && !os[n].evidence.Conflict() && os[n].context.Some?
  }

  /** The tasks met so far, beginning with those of earlier generations. */
  function Tasks(os: seq<Observation>, n: nat, known: set<Context>): set<Context>
    requires n <= |os|
  {
    if n == 0 then known
    else Tasks(os, n - 1, known) + if Introduces(os, n - 1) then {os[n - 1].context.value} else {}
  }

  /** The limit that packet n exceeds: one task too many, or one open entry too many. */
  ghost function Exceeds(g: Generation, os: seq<Observation>, n: nat, known: set<Context>): Option<LimitError>
    requires n < |os|
  {
    var tasks := Tasks(os, n, known);
    if Introduces(os, n) && os[n].context.value !in tasks && |tasks| >= MAX_CONTEXTS then Some(ContextLimit)
    else if IsEvent(os[n], Entry)
            && (|FoundAt(g, os, n)| >= MAX_OPEN_FRAMES
                || |FoundOf(g, os, AllBreaks(g, os, n), n, os[n].context.value)| >= MAX_CONTEXT_DEPTH)
    then Some(OpenFunctionLimit)
    else None
  }

  lemma EnterLimits(os: seq<Observation>, n: nat, m: Machine)
    requires n < |os| && StartsSegment(os, n)
    ensures var o, r := os[n], EnterSegment(m, os[n]);
            && (r == Err(ContextLimit) <==>
                Introduces(os, n) && o.context.value !in m.contexts && |m.contexts| >= MAX_CONTEXTS)
            && (r.Err? ==> r.error == ContextLimit)
            && (r.Ok? ==> r.value.contexts == m.contexts + if Introduces(os, n) then {o.context.value} else {})
            && (r.Ok? && Introduces(os, n) ==> SameStructure(m, r.value) && r.value.open == m.open)
  {
    hide Boundary;
  }

  lemma PairLimits(m: Machine, o: Observation)
    requires Pairable(o) && PairableStacks(m.stacks)
    ensures var r := PairEvent(m, o);
            && (r.Err? <==> && o.packet.function_ == Some(Entry)
                            && (m.open >= MAX_OPEN_FRAMES || |StackOf(m.stacks, o.context.value)| >= MAX_CONTEXT_DEPTH))
            && (r.Err? ==> r.error == OpenFunctionLimit)
            && (r.Ok? ==> r.value.contexts == m.contexts)
  {
    hide PairableStacks;
  }

  lemma InSegmentLimits(m: Machine, o: Observation)
    requires !PacketBarrier(o.packet) && PairableStacks(m.stacks)
    ensures var r := InSegment(m, o);
            && (r.Err? <==> && IsEvent(o, Entry)
                            && (m.open >= MAX_OPEN_FRAMES || |StackOf(m.stacks, o.context.value)| >= MAX_CONTEXT_DEPTH))
            && (r.Err? ==> r.error == OpenFunctionLimit)
            && (r.Ok? ==> r.value.contexts == m.contexts)
  {
    hide PairEvent, PairableStacks;
    if Pairable(o) { PairLimits(CountUnattributed(m, o), o); }
  }

  lemma FoundCount(g: Generation, os: seq<Observation>, n: nat, m: Machine, c: Context)
    requires n < |os| && Indexed(g, os) && Holds(g, os, n, FoundAt(g, os, n), m)
    ensures m.open == |FoundAt(g, os, n)|
    ensures |StackOf(m.stacks, c)| == |FoundOf(g, os, AllBreaks(g, os, n), n, c)|
  {
    hide Lists, AllBreaks, Open;
    assert Lists(g, os, n, FoundAt(g, os, n), c, StackOf(m.stacks, c));
    ListsCount(g, os, n, FoundAt(g, os, n), c, StackOf(m.stacks, c));
    assert FoundOf(g, os, AllBreaks(g, os, n), n, c) == OfContext(os, n, FoundAt(g, os, n), c);
  }

  /** A packet is refused exactly if it exceeds a limit, and otherwise its task, if it brings one, is
      known from then on. */
  lemma StepLimits(g: Generation, os: seq<Observation>, n: nat, spans: seq<Span>, m0: Machine, m: Machine)
    requires n < |os| && Arrived(g, os, n, spans, m0, m) && Undisputed(os[n])
    requires m.contexts == Tasks(os, n, m0.contexts)
    ensures var r, limit := Step(m, os, n), Exceeds(g, os, n, m0.contexts);
            && (r.Err? <==> limit.Some?) && (r.Err? ==> limit == Some(r.error))
            && (r.Ok? ==> r.value.contexts == Tasks(os, n + 1, m0.contexts))
  {
    hide Holds, Structured, Chronicle, Agrees, AllBreaks, FoundOf, FoundAt, IsEvent, InSegment, EnterSegment, Boundary;
    hide PassBoundary, AdvanceClock, PairableStacks;
    var o := os[n];
    var m1 := AdvanceClock(m, o);
    ClockAgrees(g, os, n, spans, m0, m);
    ClockKeepsStructure(g, os, n, spans, m);
    ChronicleIndexed(g, os);
    ChronicleFormed(g, os, n);
    NotBarrier(o.packet);
    if Boundary(o.packet) {
      NotPairable(o);
      PassKnows(m1, o);
    } else {
      var m2 := m1;
      if StartsSegment(os, n) {
        EnterLimits(os, n, m1);
        if EnterSegment(m1, o).Ok? {
          EnterSettles(m1, o);
          m2 := EnterSegment(m1, o).value;
        }
      }
      EventAttributed(o);
      if o.context.Some? { FoundCount(g, os, n, m1, o.context.value); }
      InSegmentLimits(m2, o);
    }
  }

  lemma EventAttributed(o: Observation)
    ensures IsEvent(o, Entry) || IsEvent(o, Exit) ==> o.context.Some?
  {
  }

  lemma PassKnows(m: Machine, o: Observation)
    ensures PassBoundary(m, o).contexts == m.contexts
  {
  }

  /** What holds when the packets of a generation are about to be paired. */
  ghost predicate Starts(g: Generation, os: seq<Observation>, spans: seq<Span>, m: Machine) {
    && Chronicle(g, os) && (forall i :: 0 <= i < |os| ==> Undisputed(os[i]))
    && Structured(g, os, 0, spans, m) && m.stacks == map[] && m.open == 0 && m.epoch == 1
  }

  lemma RunBefore(g: Generation, os: seq<Observation>, n: nat, spans: seq<Span>, m0: Machine)
    requires n < |os| && Starts(g, os, spans, m0) && Run(m0, os, n).Ok?
    ensures Arrived(g, os, n, spans, m0, Run(m0, os, n).value)
  {
    hide Chronicle, Structured, Run, Agrees;
    RunAgrees(g, os, n, spans, m0);
    RunKeepsStructure(g, os, n, spans, m0);
  }

  ghost predicate NoneExceeds(g: Generation, os: seq<Observation>, n: nat, known: set<Context>)
    requires n <= |os|
  {
    forall i :: 0 <= i < n ==> Exceeds(g, os, i, known).None?
  }

  /** A generation is refused exactly at the first packet that exceeds a limit. */
  lemma {:induction false} RunLimits(g: Generation, os: seq<Observation>, n: nat, spans: seq<Span>, m0: Machine)
    requires n <= |os| && Starts(g, os, spans, m0)
    ensures var r := Run(m0, os, n);
            && (r.Ok? <==> NoneExceeds(g, os, n, m0.contexts))
            && (r.Ok? ==> r.value.contexts == Tasks(os, n, m0.contexts))
            && (r.Err? ==> exists i :: FirstExceeds(g, os, i, m0.contexts, r.error) && i < n)
  {
    hide Chronicle, Structured, Step, Exceeds, Arrived, Tasks, Undisputed;
    if n == 0 {
      NoTasks(os, m0.contexts);
    } else {
      RunLimits(g, os, n - 1, spans, m0);
      if Run(m0, os, n - 1).Ok? {
        var m := Run(m0, os, n - 1).value;
        RunBefore(g, os, n - 1, spans, m0);
        AllUndisputed(g, os, spans, m0, n - 1);
        StepLimits(g, os, n - 1, spans, m0, m);
        if Step(m, os, n - 1).Err? {
          assert FirstExceeds(g, os, n - 1, m0.contexts, Step(m, os, n - 1).error);
        }
      } else {
        var i :| FirstExceeds(g, os, i, m0.contexts, Run(m0, os, n - 1).error) && i < n - 1;
      }
    }
  }

  lemma NoTasks(os: seq<Observation>, known: set<Context>)
    ensures Tasks(os, 0, known) == known
  {
  }

  ghost predicate FirstExceeds(g: Generation, os: seq<Observation>, i: int, known: set<Context>, limit: LimitError) {
    0 <= i < |os| && Exceeds(g, os, i, known) == Some(limit) && NoneExceeds(g, os, i, known)
  }

  lemma AllUndisputed(g: Generation, os: seq<Observation>, spans: seq<Span>, m: Machine, n: nat)
    requires n < |os| && Starts(g, os, spans, m)
    ensures Undisputed(os[n])
  {
  }

  // ---------- Counters ----------

  /** What a packet adds to the counters that pairing keeps. */
  datatype Notes = Notes(
    unattributed: int, conflicts: int, untimed: int, unknown: int, unmatched: int, mismatched: int, invalidated: int)

  function One(b: bool): int {
    if b then 1 else 0
  }

  ghost function NotesAt(g: Generation, os: seq<Observation>, n: nat): Notes
    requires n < |os|
  {
    var o, ds := os[n], AllBreaks(g, os, n);
    var inside := !Boundary(o.packet);
    Notes(One(inside && o.context.None?), One(StartsSegment(os, n) && o.evidence.Conflict()),
          One(inside && o.packet.function_.Some? && (o.timestamp.None? || o.timestamp.value.value.None?)),
          One(PacketBarrier(o.packet) && BarrierReason(o.packet) == UnknownFunctionEvent),
          One(Unmatched(g, os, ds, n)), One(Mismatched(g, os, ds, n)),
          if ReasonsAt(g, os, ds, n) == [] then 0 else |OpenAfter(g, os, n)|)
  }

  function Plus(a: Notes, b: Notes): Notes {
    Notes(a.unattributed + b.unattributed, a.conflicts + b.conflicts, a.untimed + b.untimed, a.unknown + b.unknown,
          a.unmatched + b.unmatched, a.mismatched + b.mismatched, a.invalidated + b.invalidated)
  }

  ghost function AllNotes(g: Generation, os: seq<Observation>, n: nat): Notes
    requires n <= |os|
  {
    if n == 0 then Notes(0, 0, 0, 0, 0, 0, 0) else Plus(AllNotes(g, os, n - 1), NotesAt(g, os, n - 1))
  }

  function Noted(s: Statistics, k: Notes): Statistics {
    s.(unattributedPackets := s.unattributedPackets + k.unattributed,
    attributionConflicts := s.attributionConflicts + k.conflicts,
    unknownClockEvents := s.unknownClockEvents + k.untimed,
    unknownFunctionEvents := s.unknownFunctionEvents + k.unknown,
    unmatchedExits := s.unmatchedExits + k.unmatched,
    mismatchedExits := s.mismatchedExits + k.mismatched,
    invalidatedOpenFrames := s.invalidatedOpenFrames + k.invalidated)
  }

  const NONE := Notes(0, 0, 0, 0, 0, 0, 0)

  lemma NotedBoth(s: Statistics, a: Notes, b: Notes)
    ensures Noted(Noted(s, a), b) == Noted(s, Plus(a, b)) && Noted(s, NONE) == s && Plus(a, NONE) == a == Plus(NONE, a)
  {
  }

  /** The counters m' keeps are those of m and these notes. */
  predicate Adds(m: Machine, m': Machine, k: Notes) {
    m'.stats == Noted(m.stats, k)
  }

  lemma ClockAdds(m: Machine, o: Observation)
    ensures var m' := AdvanceClock(m, o);
            && Adds(m, m', NONE.(invalidated := if o.clockEpoch == m.epoch then 0 else m.open))
            && (o.clockEpoch != m.epoch ==> m'.open == 0)
  {
  }

  lemma PassAdds(m: Machine, o: Observation)
    ensures var barrier := PacketBarrier(o.packet);
            Adds(m, PassBoundary(m, o),
                 NONE.(unknown := One(barrier && BarrierReason(o.packet) == UnknownFunctionEvent),
                 invalidated := if barrier then m.open else 0))
  {
    hide PacketBarrier;
  }

  lemma EnterAdds(m: Machine, o: Observation)
    requires EnterSegment(m, o).Ok?
    ensures var m', conflict := EnterSegment(m, o).value, o.evidence.Conflict();
            var barred := conflict || (o.context.None? && m.open > 0);
            && Adds(m, m', NONE.(conflicts := One(conflict), invalidated := if barred then m.open else 0))
            && m'.open == if barred then 0 else m.open
  {
  }

  lemma PairAdds(m: Machine, o: Observation)
    requires Pairable(o) && PairableStacks(m.stacks) && PairEvent(m, o).Ok?
    requires var stack := StackOf(m.stacks, o.context.value);
             stack != [] ==> stack[|stack| - 1].timestamp.value.value.value <= o.timestamp.value.value.value
    ensures var stack, exit := StackOf(m.stacks, o.context.value), o.packet.function_ == Some(Exit);
            var mismatch := exit && stack != [] && stack[|stack| - 1].packet.address != o.packet.address;
            Adds(m, PairEvent(m, o).value, NONE.(unmatched := One(exit && stack == []), mismatched := One(mismatch),
                 invalidated := if mismatch then m.open else 0))
  {
  }

  lemma AddsBoth(m: Machine, m1: Machine, m2: Machine, a: Notes, b: Notes)
    requires Adds(m, m1, a) && Adds(m1, m2, b)
    ensures Adds(m, m2, Plus(a, b))
  {
    NotedBoth(m.stats, a, b);
  }

  lemma CountAdds(m: Machine, o: Observation)
    ensures Adds(m, CountUnattributed(m, o), NONE.(unattributed := One(o.context.None?)))
  {
  }

  /** A packet of a segment, by what it finds: an unmatched or a mismatched exit, or neither. */
  lemma InSegmentAdds(m: Machine, o: Observation, unmatched: bool, mismatched: bool)
    requires !PacketBarrier(o.packet) && PairableStacks(m.stacks) && InSegment(m, o).Ok?
    requires Pairable(o) ==>
               var stack, exit := StackOf(m.stacks, o.context.value), o.packet.function_ == Some(Exit);
               && (stack != [] ==> stack[|stack| - 1].timestamp.value.value.value <= o.timestamp.value.value.value)
               && unmatched == (exit && stack == [])
               && mismatched == (exit && stack != [] && stack[|stack| - 1].packet.address != o.packet.address)
    requires !Pairable(o) ==> !unmatched && !mismatched
    ensures var event := o.packet.function_.Some?;
            var untimed := event && (o.timestamp.None? || o.timestamp.value.value.None?);
            var barred := untimed || (event && o.context.None?) || mismatched;
            Adds(m, InSegment(m, o).value,
                 Notes(One(o.context.None?), 0, One(untimed), 0, One(unmatched), One(mismatched),
                       if barred then m.open else 0))
  {
    hide PairEvent, PairableStacks;
    var m1 := CountUnattributed(m, o);
    CountAdds(m, o);
    if Pairable(o) {
      PairAdds(m1, o);
      AddsBoth(m, m1, PairEvent(m1, o).value, NONE.(unattributed := One(o.context.None?)),
               NONE.(unmatched := One(unmatched), mismatched := One(mismatched),
               invalidated := if mismatched then m.open else 0));
    }
  }

  /** The exit at packet n, by its stack. */
  lemma FateIs(g: Generation, os: seq<Observation>, n: nat, m0: Machine, m: Machine)
    requires n < |os| && Poised(g, os, n, m0, m) && IsEvent(os[n], Exit)
    ensures var stack, ds := StackOf(m.stacks, os[n].context.value), AllBreaks(g, os, n);
            && (Unmatched(g, os, ds, n) <==> stack == [])
            && (Mismatched(g, os, ds, n) <==> stack != [] && stack[|stack| - 1].packet.address != os[n].packet.address)
  {
    hide Partner, Poised, AllBreaks;
    var stack := StackOf(m.stacks, os[n].context.value);
    PartnerIs(g, os, n, m0, m, if stack == [] then 0 else At(g, stack[|stack| - 1]));
    forall e ensures Partner(g, os, AllBreaks(g, os, n), e, n) <==> stack != [] && e == At(g, stack[|stack| - 1]) {
      PartnerIs(g, os, n, m0, m, e);
    }
  }

  lemma NoFate(g: Generation, os: seq<Observation>, n: nat)
    requires n < |os| && !IsEvent(os[n], Exit)
    ensures !Unmatched(g, os, AllBreaks(g, os, n), n) && !Mismatched(g, os, AllBreaks(g, os, n), n)
  {
  }

  lemma OpenCount(g: Generation, os: seq<Observation>, n: nat, spans: seq<Span>, m0: Machine, m: Machine)
    requires n < |os| && Arrived(g, os, n, spans, m0, m)
    ensures m.open == |OpenAfter(g, os, n)| && |FoundAt(g, os, n)| == if ClockReasons(os, n) == [] then m.open else 0
    ensures ClockReasons(os, n) == [] <==> os[n].clockEpoch == m.epoch
  {
    hide Chronicle, Structured, OpenAfter, FoundAt, AllBreaks, AllSpans, Lists, ClockReasons;
    FoundBefore(g, os, n, spans, m0, m);
    ChronicleIndexed(g, os);
  }

  lemma BoundaryNotes(g: Generation, os: seq<Observation>, n: nat, spans: seq<Span>, m0: Machine, m: Machine)
    requires n < |os| && Arrived(g, os, n, spans, m0, m) && Boundary(os[n].packet) && WellFormed(os[n].packet)
    ensures Adds(m, PassBoundary(AdvanceClock(m, os[n]), os[n]), NotesAt(g, os, n))
  {
    NotPairable(os[n]);
    hide Arrived, OpenAfter, AllBreaks, Unmatched, Mismatched, IsEvent, Adds, PassBoundary, AdvanceClock;
    hide WellFormed, ClockReasons, PacketBarrier;
    var o := os[n];
    var m1 := AdvanceClock(m, o);
    NoFate(g, os, n);
    OpenCount(g, os, n, spans, m0, m);
    ClockAdds(m, o);
    PassAdds(m1, o);
    var barrier := PacketBarrier(o.packet);
    AddsBoth(m, m1, PassBoundary(m1, o), NONE.(invalidated := if o.clockEpoch == m.epoch then 0 else m.open),
             NONE.(unknown := One(barrier && BarrierReason(o.packet) == UnknownFunctionEvent),
             invalidated := if barrier then m1.open else 0));
    ClockOpen(m, o);
  }

  lemma ClockOpen(m: Machine, o: Observation)
    ensures AdvanceClock(m, o).open == if o.clockEpoch == m.epoch then m.open else 0
  {
  }

  /** Whether entering the segment at packet n is a discontinuity. */
  ghost predicate Barred(g: Generation, os: seq<Observation>, n: nat)
    requires n < |os|
  {
    SegmentReasons(g, os, AllBreaks(g, os, n), n) != []
  }

  lemma BarredIs(g: Generation, os: seq<Observation>, n: nat)
    requires n < |os|
    ensures Barred(g, os, n) <==>
            StartsSegment(os, n) && (os[n].evidence.Conflict() || (os[n].context.None? && |FoundAt(g, os, n)| > 0))
  {
    hide Boundary, AllBreaks, Open;
  }

  lemma PoisedOpen(g: Generation, os: seq<Observation>, n: nat, m0: Machine, m: Machine)
    requires n < |os| && Poised(g, os, n, m0, m)
    ensures m.open == |FoundAt(g, os, n)|
  {
    hide Indexed, Recorded, FoundAt, Lists;
  }

  lemma EnteredNotes(g: Generation, os: seq<Observation>, n: nat, m0: Machine, m: Machine, m': Machine)
    requires n < |os| && Poised(g, os, n, m0, m) && !Boundary(os[n].packet)
    requires if StartsSegment(os, n) then EnterSegment(m, os[n]) == Ok(m') else m' == m
    ensures Adds(m, m', NONE.(conflicts := One(StartsSegment(os, n) && os[n].evidence.Conflict()),
                 invalidated := if Barred(g, os, n) then m.open else 0))
    ensures m'.open == if Barred(g, os, n) then 0 else m.open
  {
    hide Poised, EnterSegment, Boundary, FoundAt, Barred, StartsSegment, Adds;
    BarredIs(g, os, n);
    PoisedOpen(g, os, n, m0, m);
    NoNotes(m);
    if StartsSegment(os, n) { EnterAdds(m, os[n]); }
  }

  lemma FateInside(g: Generation, os: seq<Observation>, n: nat, spans: seq<Span>, m0: Machine, m: Machine)
    requires n < |os| && !Boundary(os[n].packet) && Undisputed(os[n]) && Chronicle(g, os)
    requires Structured(g, os, n, spans, m) && PairableStacks(m.stacks) && m.epoch == os[n].clockEpoch
    requires !Barred(g, os, n) ==> Poised(g, os, n, m0, m)
    ensures var unmatched, mismatched := Unmatched(g, os, AllBreaks(g, os, n), n),
                                         Mismatched(g, os, AllBreaks(g, os, n), n);
            && (Pairable(os[n]) ==>
                  var stack, exit := StackOf(m.stacks, os[n].context.value), os[n].packet.function_ == Some(Exit);
                  && (stack != [] ==> Pairable(stack[|stack| - 1]) && stack[|stack| - 1].timestamp.value.value.value
                                                                      <= os[n].timestamp.value.value.value)
                  && unmatched == (exit && stack == [])
                  && mismatched == (exit && stack != [] && stack[|stack| - 1].packet.address != os[n].packet.address))
            && (!Pairable(os[n]) ==> !unmatched && !mismatched)
  {
    hide Chronicle, Structured, AllBreaks, Unmatched, Mismatched, Poised, Boundary, Found;
    if IsEvent(os[n], Exit) {
      assert !Barred(g, os, n);
      FateIs(g, os, n, m0, m);
    } else {
      NoFate(g, os, n);
    }
    if Pairable(os[n]) {
      var stack := StackOf(m.stacks, os[n].context.value);
      if stack != [] { EntryNotLater(g, os, n, spans, m, stack[|stack| - 1]); }
    }
  }

  ghost predicate EventIsBarred(g: Generation, os: seq<Observation>, n: nat)
    requires n < |os|
  {
    EventReasons(g, os, AllBreaks(g, os, n), n) != []
  }

  predicate Untimed(o: Observation) {
    o.packet.function_.Some? && (o.timestamp.None? || o.timestamp.value.value.None?)
  }

  /** What a packet inside a segment adds, spelled out. */
  lemma NotesInside(g: Generation, os: seq<Observation>, n: nat)
    requires n < |os| && !Boundary(os[n].packet)
    ensures var o, ds := os[n], AllBreaks(g, os, n);
            NotesAt(g, os, n)
            == Notes(One(o.context.None?), One(StartsSegment(os, n) && o.evidence.Conflict()), One(Untimed(o)), 0,
                     One(Unmatched(g, os, ds, n)), One(Mismatched(g, os, ds, n)),
                     if ClockReasons(os, n) == [] && !Barred(g, os, n) && !EventIsBarred(g, os, n) then 0
                     else |OpenAfter(g, os, n)|)
  {
    hide AllBreaks, Unmatched, Mismatched, ClockReasons, SegmentReasons, EventReasons, OpenAfter;
  }

  /** From before the clock to the event itself. */
  lemma EnteringNotes(g: Generation, os: seq<Observation>, n: nat, spans: seq<Span>, m0: Machine, m: Machine,
                      m2: Machine)
    requires n < |os| && Arrived(g, os, n, spans, m0, m) && !Boundary(os[n].packet)
    requires var m1 := AdvanceClock(m, os[n]);
             && Poised(g, os, n, m0, m1)
             && if StartsSegment(os, n) then EnterSegment(m1, os[n]) == Ok(m2) else m2 == m1
    ensures var quiet := ClockReasons(os, n) == [] && !Barred(g, os, n);
            && Adds(m, m2, NONE.(conflicts := One(StartsSegment(os, n) && os[n].evidence.Conflict()),
                    invalidated := if quiet then 0 else m.open))
            && m2.open == if quiet then m.open else 0
    ensures m.open == |OpenAfter(g, os, n)|
  {
    hide Arrived, Poised, AdvanceClock, EnterSegment, Adds, ClockReasons, StartsSegment, Boundary, OpenAfter;
    hide Barred, FoundAt;
    var o := os[n];
    var m1 := AdvanceClock(m, o);
    OpenCount(g, os, n, spans, m0, m);
    ClockAdds(m, o);
    ClockOpen(m, o);
    EnteredNotes(g, os, n, m0, m1, m2);
    AddsBoth(m, m1, m2, NONE.(invalidated := if o.clockEpoch == m.epoch then 0 else m.open),
             NONE.(conflicts := One(StartsSegment(os, n) && o.evidence.Conflict()),
             invalidated := if Barred(g, os, n) then m1.open else 0));
  }

  lemma InsideNotes(g: Generation, os: seq<Observation>, n: nat, spans: seq<Span>, m0: Machine, m: Machine, m2: Machine)
    requires n < |os| && Arrived(g, os, n, spans, m0, m) && !Boundary(os[n].packet) && Undisputed(os[n])
    requires var m1 := AdvanceClock(m, os[n]);
             && Poised(g, os, n, m0, m1)
             && if StartsSegment(os, n) then EnterSegment(m1, os[n]) == Ok(m2) else m2 == m1
    requires Structured(g, os, n, spans, m2) && PairableStacks(m2.stacks) && Chronicle(g, os)
    requires !PacketBarrier(os[n].packet) && InSegment(m2, os[n]).Ok?
    ensures Adds(m, InSegment(m2, os[n]).value, NotesAt(g, os, n))
  {
    hide Arrived, Structured, Chronicle, Poised, PairableStacks, AdvanceClock, EnterSegment, Adds, NotesAt;
    hide AllBreaks, Unmatched, Mismatched, ClockReasons, InSegment, StartsSegment, Boundary, OpenAfter, PacketBarrier;
    hide Pairable, Barred, EventIsBarred, Undisputed, One, Plus, Untimed;
    var o, ds := os[n], AllBreaks(g, os, n);
    EnteringNotes(g, os, n, spans, m0, m, m2);
    InsideLast(g, os, n, spans, m0, m2, m);
    NotesInside(g, os, n);
    var quiet := ClockReasons(os, n) == [] && !Barred(g, os, n);
    var conflicts := One(StartsSegment(os, n) && o.evidence.Conflict());
    var none, untimed := One(o.context.None?), One(Untimed(o));
    var unmatched, mismatched := One(Unmatched(g, os, ds, n)), One(Mismatched(g, os, ds, n));
    var barred := EventIsBarred(g, os, n);
    AddsBoth(m, m2, InSegment(m2, o).value, NONE.(conflicts := conflicts, invalidated := if quiet then 0 else m.open),
             Notes(none, 0, untimed, 0, unmatched, mismatched, if barred then m2.open else 0));
    SumNotes(conflicts, none, untimed, unmatched, mismatched, quiet, barred, m.open, m2.open);
  }

  lemma SumNotes(conflicts: int, none: int, untimed: int, unmatched: int, mismatched: int, quiet: bool, barred: bool,
                 before: int, after: int)
    requires after == if quiet then before else 0
    ensures Plus(NONE.(conflicts := conflicts, invalidated := if quiet then 0 else before),
                 Notes(none, 0, untimed, 0, unmatched, mismatched, if barred then after else 0))
         == Notes(none, conflicts, untimed, 0, unmatched, mismatched, if quiet && !barred then 0 else before)
  {
  }

  lemma InsideLast(g: Generation, os: seq<Observation>, n: nat, spans: seq<Span>,
                   m0: Machine, m: Machine, before: Machine)
    requires n < |os| && !Boundary(os[n].packet) && Undisputed(os[n]) && Chronicle(g, os)
    requires var m1 := AdvanceClock(before, os[n]);
             && Poised(g, os, n, m0, m1)
             && if StartsSegment(os, n) then EnterSegment(m1, os[n]) == Ok(m) else m == m1
    requires Structured(g, os, n, spans, m) && PairableStacks(m.stacks)
    requires !PacketBarrier(os[n].packet) && InSegment(m, os[n]).Ok?
    ensures var o, ds := os[n], AllBreaks(g, os, n);
            Adds(m, InSegment(m, o).value,
                 Notes(One(o.context.None?), 0, One(Untimed(o)), 0, One(Unmatched(g, os, ds, n)),
                       One(Mismatched(g, os, ds, n)), if EventIsBarred(g, os, n) then m.open else 0))
  {
    hide Structured, Chronicle, Poised, PairableStacks, AdvanceClock;
    hide EnterSegment, Adds, AllBreaks, Unmatched, Mismatched;
    hide ClockReasons, InSegment, StartsSegment, Boundary, SegmentReasons, Pairable, PacketBarrier;
    SegmentRecorded(g, os, n, m0, AdvanceClock(before, os[n]), m);
    FateInside(g, os, n, spans, m0, m);
    InSegmentAdds(m, os[n], Unmatched(g, os, AllBreaks(g, os, n), n), Mismatched(g, os, AllBreaks(g, os, n), n));
    EventBarred(g, os, n);
  }

  lemma EventBarred(g: Generation, os: seq<Observation>, n: nat)
    requires n < |os|
    ensures var o, ds := os[n], AllBreaks(g, os, n);
            EventReasons(g, os, ds, n) != [] <==>
            o.packet.function_.Some?
            && (o.timestamp.None? || o.timestamp.value.value.None? || o.context.None? || Mismatched(g, os, ds, n))
    ensures Mismatched(g, os, AllBreaks(g, os, n), n) ==> Pairable(os[n])
  {
    hide AllBreaks, FoundOf;
  }

  lemma StepNotes(g: Generation, os: seq<Observation>, n: nat, spans: seq<Span>, m0: Machine, m: Machine)
    requires n < |os| && Arrived(g, os, n, spans, m0, m) && Undisputed(os[n]) && Step(m, os, n).Ok?
    ensures Adds(m, Step(m, os, n).value, NotesAt(g, os, n))
  {
    hide Holds, AllBreaks, AllSpans, Agrees, Structured, Chronicle, Recorded, InSegment, Boundary, PassBoundary;
    hide AdvanceClock, EnterSegment, Adds, NotesAt, FoundAt;
    var o := os[n];
    var m1 := AdvanceClock(m, o);
    ClockAgrees(g, os, n, spans, m0, m);
    ClockKeepsStructure(g, os, n, spans, m);
    ChronicleIndexed(g, os);
    ChronicleFormed(g, os, n);
    if Boundary(o.packet) {
      BoundaryNotes(g, os, n, spans, m0, m);
    } else {
      var m2 := m1;
      if n == 0 || Boundary(os[n - 1].packet) {
        m2 := EnterSegment(m1, o).value;
        EnterSettles(m1, o);
        SettlingKeepsStructure(g, os, n, spans, m1, m2);
      }
      NotBarrier(o.packet);
      InsideNotes(g, os, n, spans, m0, m, m2);
    }
  }

  /** Every counter that pairing keeps is the number of packets it counts. */
  lemma {:induction false} RunNotes(g: Generation, os: seq<Observation>, n: nat, spans: seq<Span>, m0: Machine)
    requires n <= |os| && Starts(g, os, spans, m0) && Run(m0, os, n).Ok?
    ensures Adds(m0, Run(m0, os, n).value, AllNotes(g, os, n))
  {
    hide Chronicle, Structured, Step, Arrived, Undisputed, Adds, NotesAt;
    if n == 0 {
      NoNotes(m0);
    } else {
      var m := Run(m0, os, n - 1).value;
      RunNotes(g, os, n - 1, spans, m0);
      RunBefore(g, os, n - 1, spans, m0);
      AllUndisputed(g, os, spans, m0, n - 1);
      StepNotes(g, os, n - 1, spans, m0, m);
      AddsBoth(m0, m, Step(m, os, n - 1).value, AllNotes(g, os, n - 1), NotesAt(g, os, n - 1));
    }
  }

  lemma NoNotes(m: Machine)
    ensures Adds(m, m, Notes(0, 0, 0, 0, 0, 0, 0))
  {
  }
}
