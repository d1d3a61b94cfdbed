/** What every run of the normalizer keeps about its spans, its open frames and its
    discontinuities: the shape that makes a completed span trustworthy. */
module TraceStructure {

  import opened Prelude
  import opened TraceDecoder
  import opened TraceCapture
  import opened TraceReference

  // ---------- What the first pass guarantees ----------

  function Tagged(o: Observation): Option<int> {
    if o.timestamp.Some? then o.timestamp.value.value else None
  }

  /** Observations of generation g: consecutive indices, epochs that grow by at most
      one, values that do not decrease within an epoch, and conflicts that last until
      the previous-PID marker that caused them. */
  ghost predicate Chronicle(g: Generation, os: seq<Observation>) {
    && (forall i :: 0 <= i < |os| ==>
                      && os[i].generation == g.id && os[i].index == g.firstIndex + i
                      && os[i].clockEpoch >= 1 && WellFormed(os[i].packet))
    && (os != [] ==> os[0].clockEpoch == 1)
    && (forall i :: 0 < i < |os| ==> os[i - 1].clockEpoch <= os[i].clockEpoch <= os[i - 1].clockEpoch + 1)
    && (forall i, j :: && 0 <= i < j < |os| && os[i].clockEpoch == os[j].clockEpoch
                       && Tagged(os[i]).Some? && Tagged(os[j]).Some?
                       ==> Tagged(os[i]).value <= Tagged(os[j]).value)
    && (forall i :: 0 <= i < |os| && os[i].evidence.Conflict() ==> ConflictLasts(os, i))
  }

  predicate ConflictLasts(os: seq<Observation>, i: nat)
    requires i < |os|
  {
    && !Boundary(os[i].packet) && i + 1 < |os|
    && if Boundary(os[i + 1].packet) then os[i + 1].packet.kind == PreviousPid else os[i + 1].evidence == os[i].evidence
  }

  lemma ObservationsAreChronicle(g: Generation, ps: seq<Packet>, info: Info, declared: Option<Context>)
    requires g.firstIndex + |ps| <= 0x1_0000_0000_0000_0000
    requires forall i :: 0 <= i < |ps| ==> WellFormed(ps[i])
    ensures Chronicle(g, Observations(g, ps, info, declared))
  {
    hide WellFormed, Attribution;
    var os := Observations(g, ps, info, declared);
    forall i, j | && 0 <= i < j < |os| && os[i].clockEpoch == os[j].clockEpoch
                  && Tagged(os[i]).Some? && Tagged(os[j]).Some?
      ensures Tagged(os[i]).value <= Tagged(os[j]).value
    {
      ValuesInOrder(g, ps, info, declared, i, j);
    }
    forall i | 0 <= i < |os| && os[i].evidence.Conflict()
      ensures ConflictLasts(os, i)
    {
      ConflictFollowed(g, ps, info, declared, i);
    }
  }

  lemma ValuesInOrder(g: Generation, ps: seq<Packet>, info: Info, declared: Option<Context>, i: nat, j: nat)
    requires g.firstIndex + |ps| <= 0x1_0000_0000_0000_0000 && i < j < |ps| && Epoch(ps, i) == Epoch(ps, j)
    requires Tagged(Observe(g, ps, info, declared, i)).Some? && Tagged(Observe(g, ps, info, declared, j)).Some?
    ensures Tagged(Observe(g, ps, info, declared, i)).value <= Tagged(Observe(g, ps, info, declared, j)).value
  {
    hide Attribution;
    TagsInOrder(ps, i, j);
    ShiftMonotone(ps[i].tag.value, ps[j].tag.value);
  }

  lemma ShiftMonotone(a: int, b: int)
    requires a <= b
    ensures a / 256 <= b / 256
  {
  }

  /** Within one clock epoch the last tag is at least every earlier one. */
  lemma {:induction false} LastTagGrows(ps: seq<Packet>, i: nat, j: nat)
    requires i < j <= |ps| && ps[i].tag.Some? && Epoch(ps, i) == Epoch(ps, j - 1)
    ensures LastTag(ps, j).Some? && ps[i].tag.value <= LastTag(ps, j).value
  {
    if i + 1 < j {
      EpochGrows(ps, i, j - 2);
      LastTagGrows(ps, i, j - 1);
    }
  }

  lemma {:induction false} EpochGrows(ps: seq<Packet>, i: nat, j: nat)
    requires i <= j < |ps|
    ensures Epoch(ps, i) <= Epoch(ps, j)
  {
    if i < j {
      EpochGrows(ps, i, j - 1);
    }
  }

  lemma TagsInOrder(ps: seq<Packet>, i: nat, j: nat)
    requires i < j < |ps| && ps[i].tag.Some? && ps[j].tag.Some? && Epoch(ps, i) == Epoch(ps, j)
    ensures ps[i].tag.value <= ps[j].tag.value
  {
    EpochGrows(ps, i, j - 1);
    LastTagGrows(ps, i, j);
  }

  lemma ConflictFollowed(g: Generation, ps: seq<Packet>, info: Info, declared: Option<Context>, i: nat)
    requires g.firstIndex + |ps| <= 0x1_0000_0000_0000_0000 && i < |ps|
    requires Observe(g, ps, info, declared, i).evidence.Conflict()
    ensures ConflictLasts(Observations(g, ps, info, declared), i)
  {
    assert NextBoundary(ps, i) == NextBoundary(ps, i + 1);
    if !Boundary(ps[i + 1]) {
      assert PreviousBoundary(ps, i + 1) == PreviousBoundary(ps, i);
    }
  }

  // ---------- Spans ----------

  /** The span joins an entry and a later exit of one function, task, and clock epoch. */
  ghost predicate SpanOfPair(g: Generation, os: seq<Observation>, n: nat, s: Span)
    requires n <= |os|
  {
    var e, x := s.entryIndex - g.firstIndex, s.exitIndex - g.firstIndex;
    && 0 <= e < x < n
    && Pairable(os[e]) && Pairable(os[x])
    && os[e].packet.function_ == Some(Entry) && os[x].packet.function_ == Some(Exit)
    && os[e].context == os[x].context && os[e].packet.address == os[x].packet.address
    && os[e].clockEpoch == os[x].clockEpoch
    && s == SpanOf(os[e], os[x], s.depth)
    && s.start <= s.end
  }

  predicate Straddles(s: Span, d: Discontinuity) {
    s.generation == d.generation && s.entryIndex < d.index <= s.exitIndex
  }

  /** An earlier completed span and a later one of the same task. */
  predicate DisjointOrNested(inner: Span, outer: Span) {
    || inner.exitIndex < outer.entryIndex
    || (outer.entryIndex < inner.entryIndex && inner.exitIndex < outer.exitIndex && inner.depth > outer.depth)
  }

  predicate SameTask(a: Span, b: Span) {
    a.generation == b.generation && a.context == b.context
  }

  ghost predicate WellNested(spans: seq<Span>) {
    forall i, j :: 0 <= i < j < |spans| && SameTask(spans[i], spans[j]) ==> DisjointOrNested(spans[i], spans[j])
  }

  ghost predicate NoneStraddles(spans: seq<Span>, ds: seq<Discontinuity>) {
    forall s, d :: s in spans && d in ds ==> !Straddles(s, d)
  }

  // ---------- Open frames ----------

  /** f is an open entry among the first n observations, in the current epoch. */
  ghost predicate FrameOf(g: Generation, os: seq<Observation>, n: nat, epoch: nat, c: Context, f: Observation)
    requires n <= |os|
  {
    var k := f.index - g.firstIndex;
    && 0 <= k < n && os[k] == f
    && Pairable(f) && f.packet.function_ == Some(Entry) && f.context == Some(c) && f.clockEpoch == epoch
  }

  ghost predicate Frames(g: Generation, os: seq<Observation>, n: nat, m: Machine)
    requires n <= |os|
  {
    && (forall c, k :: c in m.stacks && 0 <= k < |m.stacks[c]| ==> FrameOf(g, os, n, m.epoch, c, m.stacks[c][k]))
    && (forall c, j, k :: c in m.stacks && 0 <= j < k < |m.stacks[c]| ==> m.stacks[c][j].index < m.stacks[c][k].index)
  }

  /** An open frame lies after a completed span of its task, or around it and less deep. */
  predicate Outside(s: Span, f: Observation, depth: nat) {
    s.exitIndex < f.index || (f.index < s.entryIndex && s.depth > depth)
  }

  ghost predicate SpansInside(g: Generation, m: Machine) {
    forall s, k :: s in m.spans && s.generation == g.id && 0 <= k < |StackOf(m.stacks, s.context)|
                   ==> Outside(s, StackOf(m.stacks, s.context)[k], k)
  }

  /** No discontinuity of this generation lies after an open frame's entry. */
  ghost predicate FramesAfterBarriers(g: Generation, m: Machine) {
    forall c, k, d :: c in m.stacks && 0 <= k < |m.stacks[c]| && d in m.discontinuities && d.generation == g.id
                      ==> d.index <= m.stacks[c][k].index
  }

  /** Everything recorded so far belongs to the past of packet n. */
  ghost predicate Past(g: Generation, os: seq<Observation>, n: nat, spans: seq<Span>, m: Machine)
    requires n <= |os|
  {
    && (forall s :: s in m.spans ==>
                      if s.generation == g.id then SpanOfPair(g, os, n, s) else s.generation < g.id && s in spans)
    && (forall d :: d in m.discontinuities && d.generation == g.id ==> d.index <= g.firstIndex + n)
    && (forall d :: d in m.discontinuities ==> d.generation <= g.id && d.reason != FunctionClockRegression)
  }

  /** The invariant before packet n of generation g; spans are those of earlier generations. */
  ghost predicate Structured(g: Generation, os: seq<Observation>, n: nat, spans: seq<Span>, m: Machine)
    requires n <= |os|
  {
    && Frames(g, os, n, m)
    && SpansInside(g, m)
    && FramesAfterBarriers(g, m)
    && Past(g, os, n, spans, m)
    && WellNested(m.spans)
    && NoneStraddles(m.spans, m.discontinuities)
  }

  /** m' records one more discontinuity, at o, and has no open frame. */
  predicate AfterBarrier(m: Machine, m': Machine, o: Observation) {
    && m'.stacks == map[] && m'.spans == m.spans
    && |m'.discontinuities| == |m.discontinuities| + 1
    && m'.discontinuities[..|m.discontinuities|] == m.discontinuities
    && var d := m'.discontinuities[|m.discontinuities|];
    d.generation == o.generation && d.index == o.index && d.reason != FunctionClockRegression
  }

  /** The counters of the first pass are the same. */
  predicate SameTally(m: Machine, m': Machine) {
    && m'.stats.clockRegressions == m.stats.clockRegressions && m'.stats.clockEpochs == m.stats.clockEpochs
    && m'.stats.packets == m.stats.packets && m'.stats.generations == m.stats.generations
  }

  predicate SameStructure(m: Machine, m': Machine) {
    m'.stacks == m.stacks && m'.spans == m.spans && m'.discontinuities == m.discontinuities && m'.epoch == m.epoch
  }

  lemma BarrierKeepsStructure(g: Generation, os: seq<Observation>, n: nat, spans: seq<Span>, m: Machine, m': Machine)
    requires n < |os| && Chronicle(g, os)
    requires Structured(g, os, n, spans, m) && AfterBarrier(m, m', os[n])
    ensures Structured(g, os, n, spans, m')
  {
    hide WellFormed, ConflictLasts;
    var ds, ds' := m.discontinuities, m'.discontinuities;
    assert ds' == ds + [ds'[|ds|]];
    forall s | s in m.spans
      ensures !Straddles(s, ds'[|ds|])
    {
    }
  }

  lemma PassingKeepsStructure(g: Generation, os: seq<Observation>, n: nat, spans: seq<Span>, m: Machine)
    requires n < |os| && Structured(g, os, n, spans, m)
    ensures Structured(g, os, n + 1, spans, m)
  {
  }

  /** Pushing packet n, an entry, as an open frame. */
  ghost predicate Pushes(m: Machine, m': Machine, o: Observation) {
    && Pairable(o) && o.packet.function_ == Some(Entry) && o.clockEpoch == m.epoch
    && m'.stacks == m.stacks[o.context.value := StackOf(m.stacks, o.context.value) + [o]]
    && m'.spans == m.spans && m'.discontinuities == m.discontinuities && m'.epoch == m.epoch
  }

  lemma EntryKeepsStructure(g: Generation, os: seq<Observation>, n: nat, spans: seq<Span>, m: Machine, m': Machine)
    requires n < |os| && Chronicle(g, os) && Structured(g, os, n, spans, m) && Pushes(m, m', os[n])
    ensures Structured(g, os, n + 1, spans, m')
  {
    EntryKeepsFrames(g, os, n, m, m');
    EntryKeepsInside(g, os, n, spans, m, m');
    PassingKeepsStructure(g, os, n, spans, m);
    assert Past(g, os, n + 1, spans, m') by { hide SpanOfPair; }
    hide Frames, SpansInside, FramesAfterBarriers, Past, Chronicle;
  }

  /** The new frame lies after every span and barrier so far. */
  lemma EntryKeepsInside(g: Generation, os: seq<Observation>, n: nat, spans: seq<Span>, m: Machine, m': Machine)
    requires n < |os| && Chronicle(g, os) && Structured(g, os, n, spans, m) && Pushes(m, m', os[n])
    ensures SpansInside(g, m') && FramesAfterBarriers(g, m')
  {
    hide WellFormed, ConflictLasts, Frames, WellNested, NoneStraddles;
    var o := os[n];
    assert o.index == g.firstIndex + n;
    forall s | s in m.spans && s.generation == g.id ensures s.exitIndex < o.index {
      assert SpanOfPair(g, os, n, s);
    }
    hide Chronicle, SpanOfPair;
    var stack := StackOf(m.stacks, o.context.value);
    assert StackOf(m'.stacks, o.context.value) == stack + [o];
    assert forall d :: d != o.context.value ==> StackOf(m'.stacks, d) == StackOf(m.stacks, d);
    forall s, k | s in m'.spans && s.generation == g.id && 0 <= k < |StackOf(m'.stacks, s.context)|
      ensures Outside(s, StackOf(m'.stacks, s.context)[k], k)
    {
      if k < |StackOf(m.stacks, s.context)| {
        assert Outside(s, StackOf(m.stacks, s.context)[k], k);
      }
    }
    forall c, k, d | c in m'.stacks && 0 <= k < |m'.stacks[c]| && d in m'.discontinuities && d.generation == g.id
      ensures d.index <= m'.stacks[c][k].index
    {
      if c in m.stacks && k < |m.stacks[c]| {
        assert d.index <= m.stacks[c][k].index;
      }
    }
  }

  lemma FrameLasts(g: Generation, os: seq<Observation>, n: nat, epoch: nat, c: Context, f: Observation)
    requires n < |os| && FrameOf(g, os, n, epoch, c, f)
    ensures FrameOf(g, os, n + 1, epoch, c, f) && f.index < g.firstIndex + n
  {
  }

  lemma FrameOpens(g: Generation, os: seq<Observation>, n: nat, epoch: nat)
    requires n < |os| && Chronicle(g, os) && Pairable(os[n]) && os[n].packet.function_ == Some(Entry)
    requires os[n].clockEpoch == epoch
    ensures os[n].index == g.firstIndex + n && FrameOf(g, os, n + 1, epoch, os[n].context.value, os[n])
  {
    hide WellFormed, ConflictLasts;
  }

  lemma EntryKeepsFrames(g: Generation, os: seq<Observation>, n: nat, m: Machine, m': Machine)
    requires n < |os| && Chronicle(g, os) && Frames(g, os, n, m) && Pushes(m, m', os[n])
    ensures Frames(g, os, n + 1, m')
  {
    hide Chronicle, FrameOf, Pairable;
    FrameOpens(g, os, n, m.epoch);
    forall c, k | c in m'.stacks && 0 <= k < |m'.stacks[c]|
      ensures FrameOf(g, os, n + 1, m'.epoch, c, m'.stacks[c][k])
    {
      if c in m.stacks && k < |m.stacks[c]| {
        FrameLasts(g, os, n, m.epoch, c, m.stacks[c][k]);
      }
    }
    forall c, j, k | c in m'.stacks && 0 <= j < k < |m'.stacks[c]|
      ensures m'.stacks[c][j].index < m'.stacks[c][k].index
    {
      FrameLasts(g, os, n, m.epoch, c, m.stacks[c][j]);
    }
  }

  /** Packet n, an exit, completes the innermost open frame f of its task. */
  ghost predicate Completes(m: Machine, m': Machine, o: Observation) {
    && Pairable(o) && o.packet.function_ == Some(Exit) && o.clockEpoch == m.epoch
    && var stack := StackOf(m.stacks, o.context.value);
    && stack != [] && Pairable(stack[|stack| - 1]) && stack[|stack| - 1].packet.address == o.packet.address
    && m'.stacks == m.stacks[o.context.value := stack[..|stack| - 1]]
    && m'.spans == m.spans + [SpanOf(stack[|stack| - 1], o, |stack| - 1)]
    && m'.discontinuities == m.discontinuities && m'.epoch == m.epoch
  }

  lemma ExitKeepsStructure(g: Generation, os: seq<Observation>, n: nat, spans: seq<Span>, m: Machine, m': Machine)
    requires n < |os| && Chronicle(g, os) && Structured(g, os, n, spans, m) && Completes(m, m', os[n])
    ensures Structured(g, os, n + 1, spans, m')
  {
    hide WellFormed, ConflictLasts;
    var stack := StackOf(m.stacks, os[n].context.value);
    var s := m'.spans[|m.spans|];
    CompletedSpan(g, os, n, m, m');
    ExitKeepsFrames(g, os, n, m, m');
    ExitKeepsInside(g, os, n, spans, m, m');
    ExitNests(g, os, n, spans, m, m');
    forall d | d in m'.discontinuities
      ensures !Straddles(s, d)
    {
      if d.generation == g.id {
        assert d.index <= stack[|stack| - 1].index;
      }
    }
  }

  lemma CompletedSpan(g: Generation, os: seq<Observation>, n: nat, m: Machine, m': Machine)
    requires n < |os| && Chronicle(g, os) && Frames(g, os, n, m) && Completes(m, m', os[n])
    ensures m'.spans[|m.spans|].generation == g.id && SpanOfPair(g, os, n + 1, m'.spans[|m.spans|])
  {
    hide WellFormed, ConflictLasts;
    var stack := StackOf(m.stacks, os[n].context.value);
    var f := stack[|stack| - 1];
    assert FrameOf(g, os, n, m.epoch, os[n].context.value, f);
    assert Tagged(f).value <= Tagged(os[n]).value;
  }

  lemma ExitKeepsFrames(g: Generation, os: seq<Observation>, n: nat, m: Machine, m': Machine)
    requires n < |os| && Frames(g, os, n, m) && Completes(m, m', os[n])
    ensures Frames(g, os, n + 1, m')
  {
    forall c, k | c in m'.stacks && 0 <= k < |m'.stacks[c]|
      ensures FrameOf(g, os, n + 1, m'.epoch, c, m'.stacks[c][k])
    {
      assert FrameOf(g, os, n, m.epoch, c, m.stacks[c][k]);
    }
  }

  lemma ExitKeepsInside(g: Generation, os: seq<Observation>, n: nat, spans: seq<Span>, m: Machine, m': Machine)
    requires n < |os| && Chronicle(g, os) && Structured(g, os, n, spans, m) && Completes(m, m', os[n])
    ensures SpansInside(g, m') && FramesAfterBarriers(g, m')
  {
    hide Chronicle, FrameOf, Past, WellNested, NoneStraddles;
    var c := os[n].context.value;
    var stack := StackOf(m.stacks, c);
    assert forall d :: d != c ==> StackOf(m'.stacks, d) == StackOf(m.stacks, d);
    assert StackOf(m'.stacks, c) == stack[..|stack| - 1];
    forall s, k | s in m'.spans && s.generation == g.id && 0 <= k < |StackOf(m'.stacks, s.context)|
      ensures Outside(s, StackOf(m'.stacks, s.context)[k], k)
    {
      if s in m.spans {
        assert Outside(s, StackOf(m.stacks, s.context)[k], k);
      } else {
        assert stack[k].index < stack[|stack| - 1].index;
      }
    }
    forall c', k, d | c' in m'.stacks && 0 <= k < |m'.stacks[c']| && d in m'.discontinuities && d.generation == g.id
      ensures d.index <= m'.stacks[c'][k].index
    {
      assert d.index <= m.stacks[c'][k].index;
    }
  }

  lemma ExitNests(g: Generation, os: seq<Observation>, n: nat, spans: seq<Span>, m: Machine, m': Machine)
    requires n < |os| && Chronicle(g, os) && Structured(g, os, n, spans, m) && Completes(m, m', os[n])
    ensures WellNested(m'.spans)
  {
    hide WellFormed, ConflictLasts;
    var stack := StackOf(m.stacks, os[n].context.value);
    var outer := m'.spans[|m.spans|];
    forall i | 0 <= i < |m.spans| && SameTask(m.spans[i], outer)
      ensures DisjointOrNested(m.spans[i], outer)
    {
      assert m.spans[i] in m.spans;
      assert Outside(m.spans[i], stack[|stack| - 1], |stack| - 1);
    }
  }

  // ---------- Every step keeps the structure ----------

  lemma ClockKeepsStructure(g: Generation, os: seq<Observation>, n: nat, spans: seq<Span>, m: Machine)
    requires n < |os| && Chronicle(g, os) && Structured(g, os, n, spans, m)
    ensures Structured(g, os, n, spans, AdvanceClock(m, os[n])) && AdvanceClock(m, os[n]).epoch == os[n].clockEpoch
    ensures PairableStacks(m.stacks) ==> PairableStacks(AdvanceClock(m, os[n]).stacks)
  {
    hide Chronicle, Structured;
    var m' := AdvanceClock(m, os[n]);
    if os[n].clockEpoch != m.epoch {
      BarrierKeepsStructure(g, os, n, spans, m, m');
    }
  }

  lemma SameStructureKeeps(g: Generation, os: seq<Observation>, n: nat, spans: seq<Span>, m: Machine, m': Machine)
    requires n <= |os| && Structured(g, os, n, spans, m) && SameStructure(m, m')
    ensures Structured(g, os, n, spans, m')
  {
  }

  /** A barrier at packet n, or nothing but counters. */
  predicate Settles(m: Machine, m': Machine, o: Observation) {
    m'.epoch == m.epoch && (SameStructure(m, m') || AfterBarrier(m, m', o))
  }

  lemma SettlingKeepsStructure(g: Generation, os: seq<Observation>, n: nat, spans: seq<Span>, m: Machine, m': Machine)
    requires n < |os| && Chronicle(g, os) && Structured(g, os, n, spans, m) && Settles(m, m', os[n])
    ensures Structured(g, os, n, spans, m')
  {
    hide Chronicle, Structured;
    if SameStructure(m, m') {
      SameStructureKeeps(g, os, n, spans, m, m');
    } else {
      BarrierKeepsStructure(g, os, n, spans, m, m');
    }
  }

  /** Pairing a function event never finds an exit earlier than its entry. */
  lemma PairEventKeepsStructure(g: Generation, os: seq<Observation>, n: nat, spans: seq<Span>, m: Machine)
    requires n < |os| && Chronicle(g, os) && Structured(g, os, n, spans, m)
    requires Pairable(os[n]) && PairableStacks(m.stacks) && m.epoch == os[n].clockEpoch
    requires PairEvent(m, os[n]).Ok?
    ensures var m' := PairEvent(m, os[n]).value;
            Structured(g, os, n + 1, spans, m') && m'.epoch == m.epoch && SameTally(m, m')
  {
    hide Chronicle, Structured;
    var o := os[n];
    var m' := PairEvent(m, o).value;
    var stack := StackOf(m.stacks, o.context.value);
    if o.packet.function_ == Some(Entry) {
      EntryKeepsStructure(g, os, n, spans, m, m');
    } else if stack == [] || stack[|stack| - 1].packet.address != o.packet.address {
      SettlingKeepsStructure(g, os, n, spans, m, m');
      PassingKeepsStructure(g, os, n, spans, m');
    } else {
      EntryNotLater(g, os, n, spans, m, stack[|stack| - 1]);
      ExitKeepsStructure(g, os, n, spans, m, m');
    }
  }

  lemma EntryNotLater(g: Generation, os: seq<Observation>, n: nat, spans: seq<Span>, m: Machine, f: Observation)
    requires n < |os| && Chronicle(g, os) && Structured(g, os, n, spans, m)
    requires Pairable(os[n]) && m.epoch == os[n].clockEpoch
    requires f in StackOf(m.stacks, os[n].context.value)
    ensures Pairable(f) && f.timestamp.value.value.value <= os[n].timestamp.value.value.value
  {
    hide WellFormed, ConflictLasts;
    assert FrameOf(g, os, n, m.epoch, os[n].context.value, f);
    assert Tagged(f).value <= Tagged(os[n]).value;
  }

  lemma StepKeepsStructure(g: Generation, os: seq<Observation>, n: nat, spans: seq<Span>, m: Machine)
    requires n < |os| && Chronicle(g, os) && Structured(g, os, n, spans, m) && PairableStacks(m.stacks)
    requires Step(m, os, n).Ok?
    ensures var m' := Step(m, os, n).value;
            && Structured(g, os, n + 1, spans, m')
            && m'.epoch == os[n].clockEpoch
            && SameTally(m, m')
  {
    hide Chronicle, Structured, PairEvent;
    var o := os[n];
    ClockKeepsStructure(g, os, n, spans, m);
    var m1 := AdvanceClock(m, o);
    if Boundary(o.packet) {
      var m2 := PassBoundary(m1, o);
      SettlingKeepsStructure(g, os, n, spans, m1, m2);
      PassingKeepsStructure(g, os, n, spans, m2);
    } else {
      var m2 := m1;
      if n == 0 || Boundary(os[n - 1].packet) {
        m2 := EnterSegment(m1, o).value;
        SettlingKeepsStructure(g, os, n, spans, m1, m2);
      }
      InSegmentKeepsStructure(g, os, n, spans, m2);
    }
  }

  lemma InSegmentKeepsStructure(g: Generation, os: seq<Observation>, n: nat, spans: seq<Span>, m: Machine)
    requires n < |os| && Chronicle(g, os) && Structured(g, os, n, spans, m) && PairableStacks(m.stacks)
    requires !PacketBarrier(os[n].packet) && m.epoch == os[n].clockEpoch && InSegment(m, os[n]).Ok?
    ensures var m' := InSegment(m, os[n]).value;
            Structured(g, os, n + 1, spans, m') && m'.epoch == m.epoch && SameTally(m, m')
  {
    hide Chronicle, Structured, PairEvent;
    var o := os[n];
    var m1 := CountUnattributed(m, o);
    SettlingKeepsStructure(g, os, n, spans, m, m1);
    if Pairable(o) {
      PairEventKeepsStructure(g, os, n, spans, m1);
    } else {
      var m2 := InSegment(m, o).value;
      SettlingKeepsStructure(g, os, n, spans, m1, m2);
      PassingKeepsStructure(g, os, n, spans, m2);
    }
  }

  lemma {:induction false} RunKeepsStructure(g: Generation, os: seq<Observation>, n: nat, spans: seq<Span>, m: Machine)
    requires n <= |os| && Chronicle(g, os) && Structured(g, os, 0, spans, m) && PairableStacks(m.stacks)
    requires m.epoch == 1 && Run(m, os, n).Ok?
    ensures var m' := Run(m, os, n).value;
            && Structured(g, os, n, spans, m')
            && m'.epoch == (if n == 0 then 1 else os[n - 1].clockEpoch)
            && SameTally(m, m')
  {
    hide Chronicle, Structured, Step;
    if n > 0 {
      RunKeepsStructure(g, os, n - 1, spans, m);
      StepKeepsStructure(g, os, n - 1, spans, Run(m, os, n - 1).value);
    }
  }
}
