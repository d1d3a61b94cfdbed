/** What every run of the normalizer keeps about its counters: function events are
    conserved, limits hold, and discontinuities stay within a budget of two per packet. */
module TraceBudget {

  import opened Prelude
  import opened TraceDecoder
  import opened TraceCapture
  import opened TraceReference
  import opened TraceStructure

  // ---------- Open frames over all tasks ----------

  ghost function Total(stacks: Stacks): nat
    decreases |stacks|
  {
    if stacks == map[] then 0
    else
      var c :| c in stacks;
      |stacks[c]| + Total(stacks - {c})
  }

  lemma {:induction false} TotalWithout(stacks: Stacks, c: Context)
    requires c in stacks
    ensures Total(stacks) == |stacks[c]| + Total(stacks - {c})
    decreases |stacks|
  {
    var d :| d in stacks && Total(stacks) == |stacks[d]| + Total(stacks - {d});
    if d != c {
      TotalWithout(stacks - {d}, c);
      TotalWithout(stacks - {c}, d);
      assert stacks - {d} - {c} == stacks - {c} - {d};
    }
  }

  lemma TotalAfterUpdate(stacks: Stacks, c: Context, stack: seq<Observation>)
    ensures Total(stacks[c := stack]) == Total(stacks) - |StackOf(stacks, c)| + |stack|
  {
    TotalWithout(stacks[c := stack], c);
    assert stacks[c := stack] - {c} == stacks - {c};
    if c in stacks {
      TotalWithout(stacks, c);
    } else {
      assert stacks - {c} == stacks;
    }
  }

  // ---------- Conservation ----------

  predicate IsEvent(o: Observation, kind: FunctionKind) {
    Pairable(o) && o.packet.function_ == Some(kind)
  }

  /** The pairable events of one kind among the first n observations. */
  function Events(os: seq<Observation>, n: nat, kind: FunctionKind): nat
    requires n <= |os|
  {
    if n == 0 then 0 else Events(os, n - 1, kind) + (if IsEvent(os[n - 1], kind) then 1 else 0)
  }

  /** Every entry is completed, invalidated, unfinished or open; every exit completes a
      span, is unmatched or mismatched; and no limit is exceeded. */
  ghost predicate Balanced(m: Machine, entries: int, exits: int) {
    && entries == |m.spans| + m.stats.invalidatedOpenFrames + m.stats.unfinishedFrames + m.open
    && exits == |m.spans| + m.stats.unmatchedExits + m.stats.mismatchedExits
    && m.open == Total(m.stacks) <= MAX_OPEN_FRAMES
    && (forall c :: c in m.stacks ==> |m.stacks[c]| <= MAX_CONTEXT_DEPTH)
    && |m.contexts| <= MAX_CONTEXTS
    && m.stats.invalidatedOpenFrames >= 0 && m.stats.unfinishedFrames >= 0
    && m.stats.unmatchedExits >= 0 && m.stats.mismatchedExits >= 0
  }

  /** Room that a run may spend on discontinuities and open frames. */
  function Spent(m: Machine): int {
    |m.discontinuities| + m.open
  }

  lemma PairEventBalanced(g: Generation, os: seq<Observation>, n: nat, spans: seq<Span>, m: Machine, entries: int,
                          exits: int)
    requires n < |os| && Chronicle(g, os) && Structured(g, os, n, spans, m)
    requires Pairable(os[n]) && PairableStacks(m.stacks) && m.epoch == os[n].clockEpoch
    requires Balanced(m, entries, exits) && PairEvent(m, os[n]).Ok?
    ensures var m' := PairEvent(m, os[n]).value;
            && Balanced(m', entries + (if IsEvent(os[n], Entry) then 1 else 0),
                        exits + (if IsEvent(os[n], Exit) then 1 else 0))
            && Spent(m') <= Spent(m) + 1
  {
    hide Chronicle, Structured;
    var o := os[n];
    var c := o.context.value;
    var stack := StackOf(m.stacks, c);
    if o.packet.function_ == Some(Entry) {
      TotalAfterUpdate(m.stacks, c, stack + [o]);
    } else if stack != [] && stack[|stack| - 1].packet.address == o.packet.address {
      EntryNotLater(g, os, n, spans, m, stack[|stack| - 1]);
      TotalAfterUpdate(m.stacks, c, stack[..|stack| - 1]);
    }
  }

  /** A conflict has been charged, and its previous-PID marker is still ahead. */
  function Pending(os: seq<Observation>, n: nat): nat
    requires n <= |os|
  {
    if n > 0 && os[n - 1].evidence.Conflict() then 1 else 0
  }

  function EpochBefore(os: seq<Observation>, n: nat): nat
    requires n <= |os|
  {
    if n == 0 then 1 else os[n - 1].clockEpoch
  }

  lemma ClockBalanced(m: Machine, o: Observation, entries: int, exits: int)
    requires Balanced(m, entries, exits) && m.epoch <= o.clockEpoch
    ensures Balanced(AdvanceClock(m, o), entries, exits)
    ensures Spent(AdvanceClock(m, o)) <= Spent(m) + (o.clockEpoch - m.epoch)
  {
  }

  lemma PassBoundaryBalanced(m: Machine, o: Observation, entries: int, exits: int)
    requires Balanced(m, entries, exits)
    ensures Balanced(PassBoundary(m, o), entries, exits)
    ensures Spent(PassBoundary(m, o)) <= Spent(m) + (if PacketBarrier(o.packet) then 1 else 0)
  {
  }

  lemma EnterBalanced(m: Machine, o: Observation, entries: int, exits: int)
    requires Balanced(m, entries, exits) && EnterSegment(m, o).Ok?
    ensures var m' := EnterSegment(m, o).value;
            Balanced(m', entries, exits) && Spent(m') <= Spent(m) + (if o.evidence.Conflict() then 1 else 0)
  {
  }

  lemma InSegmentBalanced(g: Generation, os: seq<Observation>, n: nat, spans: seq<Span>, m: Machine, entries: int,
                          exits: int)
    requires n < |os| && Chronicle(g, os) && Structured(g, os, n, spans, m) && PairableStacks(m.stacks)
    requires !PacketBarrier(os[n].packet) && m.epoch == os[n].clockEpoch && InSegment(m, os[n]).Ok?
    requires Balanced(m, entries, exits)
    ensures var m' := InSegment(m, os[n]).value;
            && Balanced(m', entries + (if IsEvent(os[n], Entry) then 1 else 0),
                        exits + (if IsEvent(os[n], Exit) then 1 else 0))
            && Spent(m') <= Spent(m) + 1
  {
    hide Chronicle, Structured, PairEvent;
    var m1 := CountUnattributed(m, os[n]);
    if Pairable(os[n]) {
      SameStructureKeeps(g, os, n, spans, m, m1);
      PairEventBalanced(g, os, n, spans, m1, entries, exits);
    }
  }

  /** A step spends at most one, plus one for a new epoch; a conflict is charged in
      advance to the previous-PID marker that follows it. */
  lemma StepBalanced(g: Generation, os: seq<Observation>, n: nat, spans: seq<Span>, m: Machine, entries: int,
                     exits: int)
    requires n < |os| && Chronicle(g, os) && Structured(g, os, n, spans, m) && PairableStacks(m.stacks)
    requires m.epoch == EpochBefore(os, n) && Balanced(m, entries, exits) && Step(m, os, n).Ok?
    ensures var m' := Step(m, os, n).value;
            && Balanced(m', entries + (if IsEvent(os[n], Entry) then 1 else 0),
                        exits + (if IsEvent(os[n], Exit) then 1 else 0))
            && Spent(m') + Pending(os, n) <= Spent(m) + 1 + (os[n].clockEpoch - m.epoch) + Pending(os, n + 1)
  {
    hide Structured, Balanced, PairEvent, WellFormed, AdvanceClock, PassBoundary, EnterSegment, InSegment;
    var o := os[n];
    ClockKeepsStructure(g, os, n, spans, m);
    ClockBalanced(m, o, entries, exits);
    var m1 := AdvanceClock(m, o);
    assert n > 0 && os[n - 1].evidence.Conflict() ==> ConflictLasts(os, n - 1);
    if Boundary(o.packet) {
      PassBoundaryBalanced(m1, o, entries, exits);
      NotPairable(o);
    } else if n == 0 || Boundary(os[n - 1].packet) {
      EnterBalanced(m1, o, entries, exits);
      var m2 := EnterSegment(m1, o).value;
      EnterSettles(m1, o);
      SettlingKeepsStructure(g, os, n, spans, m1, m2);
      InSegmentBalanced(g, os, n, spans, m2, entries, exits);
    } else {
      InSegmentBalanced(g, os, n, spans, m1, entries, exits);
    }
  }

  lemma NotPairable(o: Observation)
    requires WellFormed(o.packet) && Boundary(o.packet)
    ensures !IsEvent(o, Entry) && !IsEvent(o, Exit)
    ensures o.packet.kind == PreviousPid ==> !PacketBarrier(o.packet)
  {
  }

  lemma EnterSettles(m: Machine, o: Observation)
    requires EnterSegment(m, o).Ok?
    ensures Settles(m, EnterSegment(m, o).value, o)
    ensures PairableStacks(m.stacks) ==> PairableStacks(EnterSegment(m, o).value.stacks)
  {
  }

  lemma {:induction false} RunBalanced(g: Generation, os: seq<Observation>, n: nat, spans: seq<Span>, m: Machine,
                                       entries: int, exits: int)
    requires n <= |os| && Chronicle(g, os) && Structured(g, os, 0, spans, m) && PairableStacks(m.stacks)
    requires m.epoch == 1 && Balanced(m, entries, exits) && Run(m, os, n).Ok?
    ensures var m' := Run(m, os, n).value;
            && Balanced(m', entries + Events(os, n, Entry), exits + Events(os, n, Exit))
            && Spent(m') <= Spent(m) + n + (EpochBefore(os, n) - 1) + Pending(os, n)
  {
    hide Chronicle, Structured, Balanced, Step, Spent;
    if n > 0 {
      RunBalanced(g, os, n - 1, spans, m, entries, exits);
      RunKeepsStructure(g, os, n - 1, spans, m);
      StepBalanced(g, os, n - 1, spans, Run(m, os, n - 1).value, entries + Events(os, n - 1, Entry),
                   exits + Events(os, n - 1, Exit));
    }
  }
}
