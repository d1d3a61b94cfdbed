/** Which spans, discontinuities and counts a generation must yield, told by counting entries and
    exits instead of keeping stacks: an exit closes the nearest entry of its task for which entries
    and exits between the two cancel out, unless a discontinuity came between. */
module TracePairing {

  import opened Prelude
  import opened TraceDecoder
  import opened TraceCapture
  import opened TraceReference
  import opened TraceStructure
  import opened TraceBudget

  // ---------- Counting ----------

  predicate OfTask(o: Observation, c: Context, kind: FunctionKind) {
    IsEvent(o, kind) && o.context == Some(c)
  }

  function Delta(o: Observation, c: Context): int {
    if OfTask(o, c, Entry) then 1 else if OfTask(o, c, Exit) then -1 else 0
  }

  /** Entries minus exits of a task strictly between packets e and n. */
  function Between(os: seq<Observation>, c: Context, e: nat, n: nat): int
    requires e < n <= |os|
  {
    if n == e + 1 then 0 else Between(os, c, e, n - 1) + Delta(os[n - 1], c)
  }

  /** Entry e has not been closed by an exit before n: exits never outnumber entries after it. */
  ghost predicate Unclosed(os: seq<Observation>, e: nat, n: nat)
    requires e < n <= |os| && IsEvent(os[e], Entry)
  {
    forall y :: e < y <= n ==> Between(os, os[e].context.value, e, y) >= 0
  }

  /** A discontinuity of the generation lies after packet e and before packet n. */
  ghost predicate Broken(g: Generation, ds: seq<Discontinuity>, e: nat, n: nat) {
    exists d :: d in ds && d.generation == g.id && g.firstIndex + e < d.index < g.firstIndex + n
  }

  /** Entry e is open before packet n. */
  ghost predicate Open(g: Generation, os: seq<Observation>, ds: seq<Discontinuity>, e: int, n: nat) {
    0 <= e < n <= |os| && IsEvent(os[e], Entry) && Unclosed(os, e, n) && !Broken(g, ds, e, n)
  }

  /** The entries packet n finds open; a new clock epoch leaves none. */
  ghost function Found(g: Generation, os: seq<Observation>, ds: seq<Discontinuity>, n: nat): (es: set<int>)
    requires n < |os|
    ensures forall e :: e in es ==> 0 <= e < n && IsEvent(os[e], Entry)
  {
    set e | 0 <= e < n && Open(g, os, ds, e, n) && os[e].clockEpoch == os[n].clockEpoch
  }

  ghost function FoundOf(g: Generation, os: seq<Observation>, ds: seq<Discontinuity>, n: nat,
                         c: Context): (es: set<int>)
    requires n < |os|
    ensures forall e :: e in es ==> 0 <= e < n && IsEvent(os[e], Entry)
  {
    set e | e in Found(g, os, ds, n) && os[e].context == Some(c)
  }

  /** The entry that the exit x closes: open, of the same task, with as many entries as exits of that
      task between the two. */
  ghost predicate Partner(g: Generation, os: seq<Observation>, ds: seq<Discontinuity>, e: int, x: nat)
    requires x < |os|
  {
    && IsEvent(os[x], Exit) && e in FoundOf(g, os, ds, x, os[x].context.value)
    && Between(os, os[x].context.value, e, x) == 0
  }

  // ---------- What each packet yields ----------

  predicate StartsSegment(os: seq<Observation>, n: nat)
    requires n < |os|
  {
    !Boundary(os[n].packet) && (n == 0 || Boundary(os[n - 1].packet))
  }

  /** A packet that is a discontinuity by itself, whatever is open. */
  function BarrierReason(p: Packet): Reason
    requires PacketBarrier(p)
  {
    if p.event.Some? then EventReason(p.event.value.name)
    else if p.function_.Some? then UnknownFunctionEvent
    else UnknownPacket
  }

  /** An exit whose partner is an entry of another function. */
  ghost predicate Mismatched(g: Generation, os: seq<Observation>, ds: seq<Discontinuity>, x: nat)
    requires x < |os|
  {
    exists e :: Partner(g, os, ds, e, x) && os[e].packet.address != os[x].packet.address
  }

  ghost predicate Unmatched(g: Generation, os: seq<Observation>, ds: seq<Discontinuity>, x: nat)
    requires x < |os|
  {
    IsEvent(os[x], Exit) && forall e :: !Partner(g, os, ds, e, x)
  }

  function ClockReasons(os: seq<Observation>, n: nat): seq<Reason>
    requires n < |os|
  {
    if n > 0 && os[n].clockEpoch != os[n - 1].clockEpoch then [ClockRegression] else []
  }

  /** A segment starts with a conflict, or without a task while functions are open. */
  ghost function SegmentReasons(g: Generation, os: seq<Observation>, ds: seq<Discontinuity>, n: nat): seq<Reason>
    requires n < |os|
  {
    if !StartsSegment(os, n) then []
    else if os[n].evidence.Conflict() then [AttributionConflict]
    else if os[n].context.None? && Found(g, os, ds, n) != {} then [UnknownContext]
    else []
  }

  /** A function event that cannot be timed, attributed or paired. */
  ghost function EventReasons(g: Generation, os: seq<Observation>, ds: seq<Discontinuity>, n: nat): seq<Reason>
    requires n < |os|
  {
    var o := os[n];
    if o.packet.function_.None? then []
    else if o.timestamp.None? || o.timestamp.value.value.None? then [UnknownFunctionClock]
    else if o.context.None? then [UnknownFunctionContext]
    else if Mismatched(g, os, ds, n) then [FunctionExitMismatch]
    else []
  }

  /** What the packet is a discontinuity for, apart from its clock. */
  ghost function PacketReasons(g: Generation, os: seq<Observation>, ds: seq<Discontinuity>, n: nat): seq<Reason>
    requires n < |os|
  {
    if PacketBarrier(os[n].packet) then [BarrierReason(os[n].packet)]
    else if Boundary(os[n].packet) then []
    else SegmentReasons(g, os, ds, n) + EventReasons(g, os, ds, n)
  }

  ghost function ReasonsAt(g: Generation, os: seq<Observation>, ds: seq<Discontinuity>, n: nat): seq<Reason>
    requires n < |os|
  {
    ClockReasons(os, n) + PacketReasons(g, os, ds, n)
  }

  function Breaks(o: Observation, reasons: seq<Reason>): seq<Discontinuity> {
    seq(|reasons|, i requires 0 <= i < |reasons| => Discontinuity(o.generation, o.clockEpoch, o.index, reasons[i]))
  }

  /** The discontinuities of the first n packets of a generation. */
  ghost function AllBreaks(g: Generation, os: seq<Observation>, n: nat): seq<Discontinuity>
    requires n <= |os|
  {
    if n == 0 then []
    else
      var before := AllBreaks(g, os, n - 1);
      before + Breaks(os[n - 1], ReasonsAt(g, os, before, n - 1))
  }

  /** The span an exit completes, if it closes an entry of the same function. */
  ghost function SpansAt(g: Generation, os: seq<Observation>, ds: seq<Discontinuity>, x: nat): seq<Span>
    requires x < |os|
  {
    if e :| Partner(g, os, ds, e, x) && os[e].packet.address == os[x].packet.address
            then [SpanOf(os[e], os[x], |FoundOf(g, os, ds, x, os[x].context.value) - {e}|)] else []
  }

  ghost function AllSpans(g: Generation, os: seq<Observation>, n: nat): seq<Span>
    requires n <= |os|
  {
    if n == 0 then [] else AllSpans(g, os, n - 1) + SpansAt(g, os, AllBreaks(g, os, n - 1), n - 1)
  }

  // ---------- Open entries, one packet on ----------

  ghost function OpenSet(g: Generation, os: seq<Observation>, ds: seq<Discontinuity>, n: nat): (es: set<int>)
    requires n <= |os|
    ensures forall e :: e in es ==> 0 <= e < n && IsEvent(os[e], Entry)
  {
    set e | 0 <= e < n && Open(g, os, ds, e, n)
  }

  /** The packet closes the entry. */
  predicate Closes(os: seq<Observation>, e: nat, n: nat)
    requires e < n < |os| && IsEvent(os[e], Entry)
  {
    OfTask(os[n], os[e].context.value, Exit) && Between(os, os[e].context.value, e, n) == 0
  }

  lemma UnclosedNext(os: seq<Observation>, e: nat, n: nat)
    requires e < n < |os| && IsEvent(os[e], Entry)
    ensures Unclosed(os, e, n + 1) <==> Unclosed(os, e, n) && !Closes(os, e, n)
  {
    var c := os[e].context.value;
    assert Between(os, c, e, n + 1) == Between(os, c, e, n) + Delta(os[n], c);
    if Unclosed(os, e, n) && !Closes(os, e, n) {
      assert Between(os, c, e, n) >= 0;
    }
    hide Between;
    if Unclosed(os, e, n + 1) {
      assert Between(os, c, e, n + 1) >= 0;
    }
  }

  lemma BrokenNext(g: Generation, ds: seq<Discontinuity>, o: Observation, reasons: seq<Reason>, e: nat, n: nat)
    requires o.generation == g.id && o.index == g.firstIndex + n && e < n
    ensures Broken(g, ds + Breaks(o, reasons), e, n + 1) <==> Broken(g, ds, e, n + 1) || reasons != []
  {
    var more := Breaks(o, reasons);
    if reasons != [] {
      assert more[0] in ds + more;
    }
  }

  /** Discontinuities recorded so far are at earlier packets. */
  ghost predicate Earlier(g: Generation, ds: seq<Discontinuity>, n: nat) {
    forall d :: d in ds ==> d.generation == g.id && g.firstIndex <= d.index < g.firstIndex + n
  }

  lemma OpenNext(g: Generation, os: seq<Observation>, ds: seq<Discontinuity>, reasons: seq<Reason>, e: int, n: nat)
    requires n < |os| && os[n].generation == g.id && os[n].index == g.firstIndex + n && Earlier(g, ds, n)
    ensures Open(g, os, ds + Breaks(os[n], reasons), e, n + 1) <==>
            if e == n then IsEvent(os[n], Entry)
            else Open(g, os, ds, e, n) && reasons == [] && !Closes(os, e, n)
  {
    var more := Breaks(os[n], reasons);
    if e == n {
      hide Between;
      if IsEvent(os[n], Entry) { BetweenNone(os, os[n].context.value, n); }
    } else if 0 <= e < n {
      BrokenNext(g, ds, os[n], reasons, e, n);
      if IsEvent(os[e], Entry) { UnclosedNext(os, e, n); }
      assert Broken(g, ds, e, n) <==> Broken(g, ds, e, n + 1);
      hide Broken, Unclosed, Closes;
    }
  }

  lemma BetweenNone(os: seq<Observation>, c: Context, n: nat)
    requires n < |os|
    ensures Between(os, c, n, n + 1) == 0
  {
  }

  lemma OpenSetNext(g: Generation, os: seq<Observation>, ds: seq<Discontinuity>, reasons: seq<Reason>, n: nat)
    requires n < |os| && os[n].generation == g.id && os[n].index == g.firstIndex + n && Earlier(g, ds, n)
    ensures OpenSet(g, os, ds + Breaks(os[n], reasons), n + 1)
         == (if reasons != [] then {} else set e | e in OpenSet(g, os, ds, n) && !Closes(os, e, n))
            + if IsEvent(os[n], Entry) then {n} else {}
  {
    hide Open, Closes, Earlier;
    var after := OpenSet(g, os, ds + Breaks(os[n], reasons), n + 1);
    var kept := if reasons != [] then {} else set e | e in OpenSet(g, os, ds, n) && !Closes(os, e, n);
    forall e ensures e in after <==> e in kept + if IsEvent(os[n], Entry) then {n} else {} {
      OpenNext(g, os, ds, reasons, e, n);
    }
  }

  // ---------- Stacks list open entries ----------

  function At(g: Generation, f: Observation): int {
    f.index - g.firstIndex
  }

  ghost predicate Entries(os: seq<Observation>, n: nat, es: set<int>)
    requires n <= |os|
  {
    forall e :: e in es ==> 0 <= e < n && IsEvent(os[e], Entry)
  }

  /** The frame at place k of a stack is one of the entries, with as many entries left open after it
      as lie above it. */
  ghost predicate Placed(g: Generation, os: seq<Observation>, n: nat, es: set<int>, c: Context,
                         stack: seq<Observation>, k: nat)
    requires n <= |os| && Entries(os, n, es) && k < |stack|
  {
    var e := At(g, stack[k]);
    && e in es && os[e] == stack[k] && os[e].context == Some(c)
    && Between(os, c, e, n) == |stack| - 1 - k
  }

  /** The stack of a task lists its open entries, oldest first. */
  ghost predicate Lists(g: Generation, os: seq<Observation>, n: nat, es: set<int>, c: Context, stack: seq<Observation>)
    requires n <= |os| && Entries(os, n, es)
  {
    && (forall k :: 0 <= k < |stack| ==> Placed(g, os, n, es, c, stack, k))
    && (forall e :: e in es && os[e].context == Some(c) ==> os[e] in stack)
    && (forall j, k :: 0 <= j < k < |stack| ==> stack[j].index < stack[k].index)
  }

  ghost function OfContext(os: seq<Observation>, n: nat, es: set<int>, c: Context): set<int>
    requires n <= |os| && Entries(os, n, es)
  {
    set e | e in es && os[e].context == Some(c)
  }

  /** Observations know their places. */
  ghost predicate Indexed(g: Generation, os: seq<Observation>) {
    forall i :: 0 <= i < |os| ==> os[i].generation == g.id && os[i].index == g.firstIndex + i
  }

  lemma {:induction false} PlacesCount(g: Generation, stack: seq<Observation>, places: set<int>)
    requires forall j, k :: 0 <= j < k < |stack| ==> stack[j].index < stack[k].index
    requires places == set k | 0 <= k < |stack| :: At(g, stack[k])
    ensures |places| == |stack|
  {
    if stack == [] {
      assert places == {};
    } else {
      var front, last := stack[..|stack| - 1], At(g, stack[|stack| - 1]);
      var before := set k | 0 <= k < |front| :: At(g, front[k]);
      PlacesCount(g, front, before);
      assert forall e :: e in before ==> e in places && e != last;
      assert places == before + {last};
    }
  }

  lemma ListsCount(g: Generation, os: seq<Observation>, n: nat, es: set<int>, c: Context, stack: seq<Observation>)
    requires n <= |os| && Entries(os, n, es) && Indexed(g, os) && Lists(g, os, n, es, c, stack)
    ensures |OfContext(os, n, es, c)| == |stack|
  {
    hide Between;
    var places := set k | 0 <= k < |stack| :: At(g, stack[k]);
    PlacesCount(g, stack, places);
    forall e ensures e in places <==> e in OfContext(os, n, es, c) {
      if e in places {
        var k :| 0 <= k < |stack| && At(g, stack[k]) == e;
        assert Placed(g, os, n, es, c, stack, k);
      }
      if e in OfContext(os, n, es, c) {
        var k :| 0 <= k < |stack| && stack[k] == os[e];
        assert At(g, stack[k]) == e;
      }
    }
    assert places == OfContext(os, n, es, c);
  }

  /** The innermost open entry is the only one that nothing is open after. */
  lemma ListsTop(g: Generation, os: seq<Observation>, n: nat, es: set<int>, c: Context, stack: seq<Observation>, e: int)
    requires n <= |os| && Entries(os, n, es) && Indexed(g, os) && Lists(g, os, n, es, c, stack)
    ensures stack != [] ==> && At(g, stack[|stack| - 1]) in es && os[At(g, stack[|stack| - 1])] == stack[|stack| - 1]
    ensures (e in es && os[e].context == Some(c) && Between(os, c, e, n) == 0) <==>
            stack != [] && e == At(g, stack[|stack| - 1])
  {
    hide Between;
    if stack != [] { assert Placed(g, os, n, es, c, stack, |stack| - 1); }
    if e in es && os[e].context == Some(c) && Between(os, c, e, n) == 0 {
      var k :| 0 <= k < |stack| && stack[k] == os[e];
      assert Placed(g, os, n, es, c, stack, k);
    }
  }

  lemma PlacedNext(g: Generation, os: seq<Observation>, n: nat, es: set<int>, es': set<int>, c: Context,
                   stack: seq<Observation>, stack': seq<Observation>, k: nat)
    requires n < |os| && Entries(os, n, es) && Entries(os, n + 1, es') && k < |stack| && k < |stack'|
    requires Placed(g, os, n, es, c, stack, k) && stack'[k] == stack[k] && At(g, stack[k]) in es'
    requires |stack'| == |stack| + Delta(os[n], c)
    ensures Placed(g, os, n + 1, es', c, stack', k)
  {
    hide Delta;
    var e := At(g, stack[k]);
    assert Between(os, c, e, n + 1) == Between(os, c, e, n) + Delta(os[n], c);
  }

  lemma ListsPush(g: Generation, os: seq<Observation>, n: nat, es: set<int>, c: Context, stack: seq<Observation>)
    requires n < |os| && Entries(os, n, es) && Indexed(g, os) && Lists(g, os, n, es, c, stack)
    requires OfTask(os[n], c, Entry)
    ensures Entries(os, n + 1, es + {n}) && Lists(g, os, n + 1, es + {n}, c, stack + [os[n]])
  {
    hide Between;
    var es', stack', next := es + {n}, stack + [os[n]], n + 1;
    forall k | 0 <= k < |stack'| ensures Placed(g, os, next, es', c, stack', k) {
      if k < |stack| {
        PlacedNext(g, os, n, es, es', c, stack, stack', k);
      } else {
        BetweenNone(os, c, n);
      }
    }
    forall k | 0 <= k < |stack| ensures stack[k].index < os[n].index {
      assert Placed(g, os, n, es, c, stack, k);
    }
  }

  lemma ListsPop(g: Generation, os: seq<Observation>, n: nat, es: set<int>, c: Context, stack: seq<Observation>)
    requires n < |os| && Entries(os, n, es) && Indexed(g, os) && Lists(g, os, n, es, c, stack)
    requires OfTask(os[n], c, Exit) && stack != []
    ensures var top := At(g, stack[|stack| - 1]);
            Entries(os, n + 1, es - {top}) && Lists(g, os, n + 1, es - {top}, c, stack[..|stack| - 1])
  {
    hide Between;
    var top := At(g, stack[|stack| - 1]);
    var es', stack', next := es - {top}, stack[..|stack| - 1], n + 1;
    forall k | 0 <= k < |stack'| ensures Placed(g, os, next, es', c, stack', k) {
      assert stack[k].index < stack[|stack| - 1].index;
      PlacedNext(g, os, n, es, es', c, stack, stack', k);
    }
    forall e | e in es' && os[e].context == Some(c) ensures os[e] in stack' {
      var k :| 0 <= k < |stack| && stack[k] == os[e];
      assert k < |stack| - 1;
      assert stack'[k] == os[e];
    }
  }

  /** A packet that is no event of the task leaves its list alone. */
  lemma ListsPass(g: Generation, os: seq<Observation>, n: nat, es: set<int>, es': set<int>, c: Context,
                  stack: seq<Observation>)
    requires n < |os| && Entries(os, n, es) && Entries(os, n + 1, es') && Lists(g, os, n, es, c, stack)
    requires OfContext(os, n + 1, es', c) == OfContext(os, n, es, c) && Delta(os[n], c) == 0
    ensures Lists(g, os, n + 1, es', c, stack)
  {
    hide Between, Delta;
    var next := n + 1;
    forall k | 0 <= k < |stack| ensures Placed(g, os, next, es', c, stack, k) {
      assert Placed(g, os, n, es, c, stack, k);
      assert At(g, stack[k]) in OfContext(os, n, es, c);
      PlacedNext(g, os, n, es, es', c, stack, stack, k);
    }
    forall e | e in es' && os[e].context == Some(c) ensures os[e] in stack {
      assert e in OfContext(os, n + 1, es', c);
    }
  }

  // ---------- The machine agrees ----------

  /** What is open after n packets, by the discontinuities of those packets. */
  ghost function OpenAfter(g: Generation, os: seq<Observation>, n: nat): (es: set<int>)
    requires n <= |os|
    ensures Entries(os, n, es)
  {
    OpenSet(g, os, AllBreaks(g, os, n), n)
  }

  /** Every stack lists the open entries of its task. */
  ghost predicate Holds(g: Generation, os: seq<Observation>, n: nat, es: set<int>, m: Machine)
    requires n <= |os| && Entries(os, n, es)
  {
    m.open == |es| && forall c :: Lists(g, os, n, es, c, StackOf(m.stacks, c))
  }

  /** The machine, started as m0, has recorded exactly the discontinuities and spans of n packets. */
  ghost predicate Agrees(g: Generation, os: seq<Observation>, n: nat, m0: Machine, m: Machine)
    requires n <= |os|
  {
    && m.discontinuities == m0.discontinuities + AllBreaks(g, os, n)
    && m.spans == m0.spans + AllSpans(g, os, n)
    && Holds(g, os, n, OpenAfter(g, os, n), m)
  }

  lemma {:induction false} BreaksEarlier(g: Generation, os: seq<Observation>, n: nat)
    requires n <= |os| && Indexed(g, os)
    ensures Earlier(g, AllBreaks(g, os, n), n)
  {
    hide ReasonsAt;
    if n > 0 { BreaksEarlier(g, os, n - 1); }
  }

  /** No entries, no stacks. */
  lemma HoldsNothing(g: Generation, os: seq<Observation>, n: nat, m: Machine)
    requires n <= |os| && m.stacks == map[] && m.open == 0
    ensures Holds(g, os, n, {}, m)
  {
  }

  /** What packet n finds open is what was left open, or nothing in a new epoch. */
  lemma FoundIs(g: Generation, os: seq<Observation>, n: nat, m: Machine)
    requires n < |os| && Holds(g, os, n, OpenAfter(g, os, n), m)
    requires forall e :: e in OpenAfter(g, os, n) ==> os[e].clockEpoch == m.epoch
    ensures Found(g, os, AllBreaks(g, os, n), n)
         == if os[n].clockEpoch == m.epoch then OpenAfter(g, os, n) else {}
  {
    hide Open, AllBreaks, Holds;
  }

  /** Open entries are of the current epoch. */
  lemma OpenEpoch(g: Generation, os: seq<Observation>, n: nat, spans: seq<Span>, m: Machine, e: int)
    requires n <= |os| && Indexed(g, os) && Structured(g, os, n, spans, m)
    requires Holds(g, os, n, OpenAfter(g, os, n), m) && e in OpenAfter(g, os, n)
    ensures os[e].clockEpoch == m.epoch
  {
    hide OpenAfter, Placed, SpansInside, FramesAfterBarriers, Past, WellNested, NoneStraddles;
    var c := os[e].context.value;
    assert Lists(g, os, n, OpenAfter(g, os, n), c, StackOf(m.stacks, c));
    var k :| 0 <= k < |StackOf(m.stacks, c)| && StackOf(m.stacks, c)[k] == os[e];
    assert FrameOf(g, os, n, m.epoch, c, m.stacks[c][k]);
  }

  // ---------- One packet ----------

  /** The machine m before packet n, and what is known of the observations. */
  ghost predicate Arrived(g: Generation, os: seq<Observation>, n: nat, spans: seq<Span>, m0: Machine, m: Machine) {
    && n < |os| && Chronicle(g, os) && Structured(g, os, n, spans, m) && PairableStacks(m.stacks)
    && m.epoch == EpochBefore(os, n) && Agrees(g, os, n, m0, m)
  }

  ghost function FoundAt(g: Generation, os: seq<Observation>, n: nat): (es: set<int>)
    requires n < |os|
    ensures Entries(os, n, es)
  {
    Found(g, os, AllBreaks(g, os, n), n)
  }

  lemma ChronicleIndexed(g: Generation, os: seq<Observation>)
    requires Chronicle(g, os)
    ensures Indexed(g, os)
    ensures forall n :: 0 <= n < |os| ==> (ClockReasons(os, n) == [] <==> os[n].clockEpoch == EpochBefore(os, n))
  {
    hide WellFormed, ConflictLasts;
  }

  lemma FoundBefore(g: Generation, os: seq<Observation>, n: nat, spans: seq<Span>, m0: Machine, m: Machine)
    requires n < |os| && Arrived(g, os, n, spans, m0, m)
    ensures FoundAt(g, os, n) == if ClockReasons(os, n) == [] then OpenAfter(g, os, n) else {}
  {
    hide Chronicle, Structured, OpenAfter, Holds, AllSpans, AllBreaks, ClockReasons;
    ChronicleIndexed(g, os);
    forall e | e in OpenAfter(g, os, n) ensures os[e].clockEpoch == m.epoch {
      OpenEpoch(g, os, n, spans, m, e);
    }
    FoundIs(g, os, n, m);
  }

  /** The machine at packet n, after the given reasons were recorded. */
  ghost predicate Recorded(g: Generation, os: seq<Observation>, n: nat, m0: Machine, m: Machine, reasons: seq<Reason>)
    requires n < |os|
  {
    && m.discontinuities == m0.discontinuities + AllBreaks(g, os, n) + Breaks(os[n], reasons)
    && m.spans == m0.spans + AllSpans(g, os, n)
  }

  lemma BreaksMore(o: Observation, reasons: seq<Reason>, more: seq<Reason>)
    ensures Breaks(o, reasons + more) == Breaks(o, reasons) + Breaks(o, more)
  {
  }

  /** A barrier for one more reason. */
  lemma BarrierRecorded(g: Generation, os: seq<Observation>, n: nat, m0: Machine, m: Machine, reasons: seq<Reason>,
                        reason: Reason)
    requires n < |os| && Recorded(g, os, n, m0, m, reasons) && m.epoch == os[n].clockEpoch
    ensures var m' := Barrier(m, os[n].generation, os[n].index, reason);
            Recorded(g, os, n, m0, m', reasons + [reason]) && m'.stacks == map[] && m'.open == 0
  {
    hide AllBreaks, AllSpans;
    BreaksMore(os[n], reasons, [reason]);
    assert Breaks(os[n], [reason]) == [Discontinuity(os[n].generation, m.epoch, os[n].index, reason)];
  }

  lemma ClockAgrees(g: Generation, os: seq<Observation>, n: nat, spans: seq<Span>, m0: Machine, m: Machine)
    requires n < |os| && Arrived(g, os, n, spans, m0, m)
    ensures var m1 := AdvanceClock(m, os[n]);
            && Recorded(g, os, n, m0, m1, ClockReasons(os, n)) && m1.epoch == os[n].clockEpoch
            && Holds(g, os, n, FoundAt(g, os, n), m1) && m1.contexts == m.contexts
  {
    hide Chronicle, Structured, OpenAfter, FoundAt, Holds, AllSpans, AllBreaks, PairableStacks;
    ChronicleIndexed(g, os);
    FoundBefore(g, os, n, spans, m0, m);
    assert Recorded(g, os, n, m0, m, []);
    if ClockReasons(os, n) != [] {
      BarrierRecorded(g, os, n, m0, m.(epoch := os[n].clockEpoch), [], ClockRegression);
      assert [] + [ClockRegression] == [ClockRegression];
      HoldsNothing(g, os, n, AdvanceClock(m, os[n]));
    }
  }

  // ---------- What is open afterwards ----------

  lemma OpenAfterPacket(g: Generation, os: seq<Observation>, n: nat, spans: seq<Span>, m0: Machine, m: Machine)
    requires n < |os| && Arrived(g, os, n, spans, m0, m)
    ensures var entered := if IsEvent(os[n], Entry) then {n} else {};
            OpenAfter(g, os, n + 1)
            == (if PacketReasons(g, os, AllBreaks(g, os, n), n) != [] then {}
                else set e | e in FoundAt(g, os, n) && !Closes(os, e, n))
            + entered
  {
    hide Chronicle, Structured, FoundAt, Agrees, PacketReasons, ClockReasons, OpenSet;
    ChronicleIndexed(g, os);
    var ds := AllBreaks(g, os, n);
    FoundBefore(g, os, n, spans, m0, m);
    BreaksEarlier(g, os, n);
    OpenSetNext(g, os, ds, ReasonsAt(g, os, ds, n), n);
  }

  // ---------- Pairing a function event ----------

  /** The machine at packet n, nothing but its clock accounted for. */
  ghost predicate Poised(g: Generation, os: seq<Observation>, n: nat, m0: Machine, m: Machine)
    requires n < |os|
  {
    && Recorded(g, os, n, m0, m, ClockReasons(os, n)) && m.epoch == os[n].clockEpoch
    && Holds(g, os, n, FoundAt(g, os, n), m) && Indexed(g, os)
  }

  lemma HoldsPush(g: Generation, os: seq<Observation>, n: nat, es: set<int>, m: Machine, m': Machine)
    requires n < |os| && Entries(os, n, es) && Indexed(g, os) && Holds(g, os, n, es, m) && IsEvent(os[n], Entry)
    requires var c := os[n].context.value;
             m'.stacks == m.stacks[c := StackOf(m.stacks, c) + [os[n]]] && m'.open == m.open + 1
    ensures Entries(os, n + 1, es + {n}) && Holds(g, os, n + 1, es + {n}, m')
  {
    hide Lists;
    var task, next := os[n].context.value, n + 1;
    assert n !in es;
    forall c ensures Lists(g, os, next, es + {n}, c, StackOf(m'.stacks, c)) {
      if c == task {
        ListsPush(g, os, n, es, c, StackOf(m.stacks, c));
      } else {
        assert OfContext(os, next, es + {n}, c) == OfContext(os, n, es, c);
        ListsPass(g, os, n, es, es + {n}, c, StackOf(m.stacks, c));
      }
    }
  }

  lemma HoldsPop(g: Generation, os: seq<Observation>, n: nat, es: set<int>, m: Machine, m': Machine, top: int)
    requires n < |os| && Entries(os, n, es) && Indexed(g, os) && Holds(g, os, n, es, m) && IsEvent(os[n], Exit)
    requires var stack := StackOf(m.stacks, os[n].context.value);
             && stack != [] && top == At(g, stack[|stack| - 1])
             && m'.stacks == m.stacks[os[n].context.value := stack[..|stack| - 1]] && m'.open == m.open - 1
    ensures Entries(os, n + 1, es - {top}) && Holds(g, os, n + 1, es - {top}, m')
  {
    hide Lists;
    var task, next := os[n].context.value, n + 1;
    assert Lists(g, os, n, es, task, StackOf(m.stacks, task));
    ListsTop(g, os, n, es, task, StackOf(m.stacks, task), top);
    forall c ensures Lists(g, os, next, es - {top}, c, StackOf(m'.stacks, c)) {
      if c == task {
        ListsPop(g, os, n, es, c, StackOf(m.stacks, c));
      } else {
        assert OfContext(os, next, es - {top}, c) == OfContext(os, n, es, c);
        ListsPass(g, os, n, es, es - {top}, c, StackOf(m.stacks, c));
      }
    }
  }

  lemma HoldsPass(g: Generation, os: seq<Observation>, n: nat, es: set<int>, m: Machine, m': Machine)
    requires n < |os| && Entries(os, n, es) && Holds(g, os, n, es, m) && !IsEvent(os[n], Entry)
    requires IsEvent(os[n], Exit) ==> StackOf(m.stacks, os[n].context.value) == []
    requires m'.stacks == m.stacks && m'.open == m.open
    ensures Entries(os, n + 1, es) && Holds(g, os, n + 1, es, m')
  {
    hide Between;
    var next := n + 1;
    forall c ensures Lists(g, os, next, es, c, StackOf(m'.stacks, c)) {
      assert Lists(g, os, n, es, c, StackOf(m.stacks, c));
      if StackOf(m.stacks, c) != [] {
        assert OfContext(os, next, es, c) == OfContext(os, n, es, c);
        ListsPass(g, os, n, es, es, c, StackOf(m.stacks, c));
      }
    }
  }

  /** An exit finds a partner exactly if its stack is not empty: the frame on top. */
  lemma PartnerIs(g: Generation, os: seq<Observation>, n: nat, m0: Machine, m: Machine, e: int)
    requires n < |os| && Poised(g, os, n, m0, m) && IsEvent(os[n], Exit)
    ensures var stack := StackOf(m.stacks, os[n].context.value);
            && (stack != [] ==> && 0 <= At(g, stack[|stack| - 1]) < n
                                && os[At(g, stack[|stack| - 1])] == stack[|stack| - 1])
            && (Partner(g, os, AllBreaks(g, os, n), e, n) <==> stack != [] && e == At(g, stack[|stack| - 1]))
            && |FoundOf(g, os, AllBreaks(g, os, n), n, os[n].context.value)| == |stack|
  {
    hide Between, Lists, AllBreaks, AllSpans, Open, Recorded;
    var c, es := os[n].context.value, FoundAt(g, os, n);
    var stack := StackOf(m.stacks, c);
    assert Lists(g, os, n, es, c, stack);
    ListsTop(g, os, n, es, c, stack, e);
    ListsCount(g, os, n, es, c, stack);
    assert FoundOf(g, os, AllBreaks(g, os, n), n, c) == OfContext(os, n, es, c);
  }

  lemma AgreesNext(g: Generation, os: seq<Observation>, n: nat, m0: Machine, m: Machine)
    requires n < |os| && m.discontinuities
                         == m0.discontinuities + AllBreaks(g, os, n)
                            + Breaks(os[n], ReasonsAt(g, os, AllBreaks(g, os, n), n))
    requires m.spans == m0.spans + AllSpans(g, os, n) + SpansAt(g, os, AllBreaks(g, os, n), n)
    requires Holds(g, os, n + 1, OpenAfter(g, os, n + 1), m)
    ensures Agrees(g, os, n + 1, m0, m)
  {
    hide ReasonsAt, SpansAt, Holds, OpenAfter, AllBreaks, AllSpans, Breaks;
    BreaksNext(g, os, n);
    assert m.discontinuities == m0.discontinuities + AllBreaks(g, os, n + 1);
    assert m.spans == m0.spans + AllSpans(g, os, n + 1);
  }

  lemma BreaksNext(g: Generation, os: seq<Observation>, n: nat)
    requires n < |os|
    ensures var before := AllBreaks(g, os, n);
            && AllBreaks(g, os, n + 1) == before + Breaks(os[n], ReasonsAt(g, os, before, n))
            && AllSpans(g, os, n + 1) == AllSpans(g, os, n) + SpansAt(g, os, before, n)
  {
    hide ReasonsAt, SpansAt, Breaks;
  }


  /** A conflicting attribution attributes nothing. */
  predicate Undisputed(o: Observation) {
    o.evidence.Conflict() ==> o.context.None?
  }

  /** The reasons at a packet that can be paired: only a mismatch. */
  lemma PairableReasons(g: Generation, os: seq<Observation>, ds: seq<Discontinuity>, n: nat)
    requires n < |os| && Pairable(os[n]) && Undisputed(os[n]) && !Boundary(os[n].packet)
    ensures PacketReasons(g, os, ds, n) == if Mismatched(g, os, ds, n) then [FunctionExitMismatch] else []
  {
    hide Mismatched, Found;
  }

  lemma EntryAgrees(g: Generation, os: seq<Observation>, n: nat, spans: seq<Span>, m0: Machine, before: Machine,
                    m: Machine)
    requires n < |os| && Arrived(g, os, n, spans, m0, before) && Poised(g, os, n, m0, m) && PairableStacks(m.stacks)
    requires IsEvent(os[n], Entry) && Undisputed(os[n]) && !Boundary(os[n].packet) && PairEvent(m, os[n]).Ok?
    ensures Agrees(g, os, n + 1, m0, PairEvent(m, os[n]).value)
  {
    hide Arrived, Holds, FoundAt, OpenAfter, AllBreaks, AllSpans, PairableStacks, Indexed, Between;
    var ds, m' := AllBreaks(g, os, n), PairEvent(m, os[n]).value;
    PairableReasons(g, os, ds, n);
    assert ClockReasons(os, n) + [] == ClockReasons(os, n);
    assert SpansAt(g, os, ds, n) == [];
    assert m0.spans + AllSpans(g, os, n) + [] == m0.spans + AllSpans(g, os, n);
    OpenAfterPacket(g, os, n, spans, m0, before);
    assert (set e | e in FoundAt(g, os, n) && !Closes(os, e, n)) == FoundAt(g, os, n);
    HoldsPush(g, os, n, FoundAt(g, os, n), m, m');
    AgreesNext(g, os, n, m0, m');
  }

  lemma UnmatchedAgrees(g: Generation, os: seq<Observation>, n: nat, spans: seq<Span>, m0: Machine, before: Machine,
                        m: Machine)
    requires n < |os| && Arrived(g, os, n, spans, m0, before) && Poised(g, os, n, m0, m) && PairableStacks(m.stacks)
    requires IsEvent(os[n], Exit) && Undisputed(os[n]) && !Boundary(os[n].packet)
    requires StackOf(m.stacks, os[n].context.value) == []
    ensures PairEvent(m, os[n]).Ok? && Agrees(g, os, n + 1, m0, PairEvent(m, os[n]).value)
    ensures Unmatched(g, os, AllBreaks(g, os, n), n)
  {
    hide Arrived, Holds, FoundAt, OpenAfter, AllBreaks, AllSpans, PairableStacks, Indexed, Between, Partner;
    var ds, m' := AllBreaks(g, os, n), PairEvent(m, os[n]).value;
    forall e ensures !Partner(g, os, ds, e, n) { PartnerIs(g, os, n, m0, m, e); }
    PairableReasons(g, os, ds, n);
    assert ClockReasons(os, n) + [] == ClockReasons(os, n);
    assert SpansAt(g, os, ds, n) == [];
    assert m0.spans + AllSpans(g, os, n) + [] == m0.spans + AllSpans(g, os, n);
    OpenAfterPacket(g, os, n, spans, m0, before);
    forall e | e in FoundAt(g, os, n) ensures !Closes(os, e, n) { ClosesPartner(g, os, n, e); }
    assert (set e | e in FoundAt(g, os, n) && !Closes(os, e, n)) == FoundAt(g, os, n);
    assert OpenAfter(g, os, n + 1) == FoundAt(g, os, n);
    HoldsPass(g, os, n, FoundAt(g, os, n), m, m');
    AgreesNext(g, os, n, m0, m');
  }

  lemma ClosesPartner(g: Generation, os: seq<Observation>, n: nat, e: int)
    requires n < |os| && e in FoundAt(g, os, n)
    ensures Closes(os, e, n) <==> Partner(g, os, AllBreaks(g, os, n), e, n)
  {
    hide Between, AllBreaks, Open;
  }

  lemma ClosedAgrees(g: Generation, os: seq<Observation>, n: nat, spans: seq<Span>, m0: Machine, before: Machine,
                     m: Machine, m': Machine)
    requires n < |os| && Arrived(g, os, n, spans, m0, before) && Poised(g, os, n, m0, m) && PairableStacks(m.stacks)
    requires IsEvent(os[n], Exit) && Undisputed(os[n]) && !Boundary(os[n].packet) && Completes(m, m', os[n])
    requires m'.open == m.open - 1
    ensures Agrees(g, os, n + 1, m0, m')
  {
    hide Arrived, Holds, FoundAt, OpenAfter, AllBreaks, AllSpans, PairableStacks, Indexed, Between, Partner, FoundOf;
    var ds, c := AllBreaks(g, os, n), os[n].context.value;
    var stack := StackOf(m.stacks, c);
    var top := At(g, stack[|stack| - 1]);
    forall e ensures Partner(g, os, ds, e, n) <==> e == top { PartnerIs(g, os, n, m0, m, e); }
    PartnerIs(g, os, n, m0, m, top);
    assert !Mismatched(g, os, ds, n);
    PairableReasons(g, os, ds, n);
    assert ClockReasons(os, n) + [] == ClockReasons(os, n);
    PartnerFound(g, os, ds, top, n);
    assert SpansAt(g, os, ds, n) == [SpanOf(stack[|stack| - 1], os[n], |stack| - 1)];
    OpenAfterPacket(g, os, n, spans, m0, before);
    forall e | e in FoundAt(g, os, n) ensures Closes(os, e, n) <==> e == top { ClosesPartner(g, os, n, e); }
    assert (set e | e in FoundAt(g, os, n) && !Closes(os, e, n)) == FoundAt(g, os, n) - {top};
    HoldsPop(g, os, n, FoundAt(g, os, n), m, m', top);
    AgreesNext(g, os, n, m0, m');
  }

  lemma PartnerFound(g: Generation, os: seq<Observation>, ds: seq<Discontinuity>, e: int, n: nat)
    requires n < |os| && Partner(g, os, ds, e, n)
    ensures e in FoundOf(g, os, ds, n, os[n].context.value)
    ensures |FoundOf(g, os, ds, n, os[n].context.value) - {e}| == |FoundOf(g, os, ds, n, os[n].context.value)| - 1
  {
  }

  /** Anything that ends in a barrier at a packet that is no entry. */
  lemma BarredAgrees(g: Generation, os: seq<Observation>, n: nat, spans: seq<Span>, m0: Machine, before: Machine,
                     m: Machine)
    requires n < |os| && Arrived(g, os, n, spans, m0, before) && !IsEvent(os[n], Entry)
    requires PacketReasons(g, os, AllBreaks(g, os, n), n) != [] && SpansAt(g, os, AllBreaks(g, os, n), n) == []
    requires Recorded(g, os, n, m0, m, ReasonsAt(g, os, AllBreaks(g, os, n), n)) && m.stacks == map[] && m.open == 0
    ensures Agrees(g, os, n + 1, m0, m)
  {
    hide Arrived, Holds, FoundAt, OpenAfter, AllBreaks, AllSpans, PacketReasons, ReasonsAt, SpansAt, Closes;
    assert m0.spans + AllSpans(g, os, n) + [] == m0.spans + AllSpans(g, os, n);
    OpenAfterPacket(g, os, n, spans, m0, before);
    HoldsNothing(g, os, n + 1, m);
    AgreesNext(g, os, n, m0, m);
  }

  lemma MismatchAgrees(g: Generation, os: seq<Observation>, n: nat, spans: seq<Span>, m0: Machine, before: Machine,
                       m: Machine)
    requires n < |os| && Arrived(g, os, n, spans, m0, before) && Poised(g, os, n, m0, m) && PairableStacks(m.stacks)
    requires IsEvent(os[n], Exit) && Undisputed(os[n]) && !Boundary(os[n].packet)
    requires var stack := StackOf(m.stacks, os[n].context.value);
             stack != [] && stack[|stack| - 1].packet.address != os[n].packet.address
    ensures PairEvent(m, os[n]).Ok? && Agrees(g, os, n + 1, m0, PairEvent(m, os[n]).value)
    ensures Mismatched(g, os, AllBreaks(g, os, n), n)
  {
    hide Arrived, Holds, FoundAt, AllBreaks, AllSpans, PairableStacks, Indexed, Between, Partner, Agrees, Breaks;
    var ds, m' := AllBreaks(g, os, n), PairEvent(m, os[n]).value;
    var stack := StackOf(m.stacks, os[n].context.value);
    var top := At(g, stack[|stack| - 1]);
    forall e ensures Partner(g, os, ds, e, n) <==> e == top { PartnerIs(g, os, n, m0, m, e); }
    PartnerIs(g, os, n, m0, m, top);
    PairableReasons(g, os, ds, n);
    assert SpansAt(g, os, ds, n) == [];
    var counted := m.(stats := m.stats.(mismatchedExits := m.stats.mismatchedExits + 1));
    assert Recorded(g, os, n, m0, counted, ClockReasons(os, n));
    BarrierRecorded(g, os, n, m0, counted, ClockReasons(os, n), FunctionExitMismatch);
    BarredAgrees(g, os, n, spans, m0, before, m');
  }

  // ---------- Every packet ----------

  lemma PairEventAgrees(g: Generation, os: seq<Observation>, n: nat, spans: seq<Span>, m0: Machine, before: Machine,
                        m: Machine)
    requires n < |os| && Arrived(g, os, n, spans, m0, before) && Poised(g, os, n, m0, m) && PairableStacks(m.stacks)
    requires Structured(g, os, n, spans, m) && Chronicle(g, os)
    requires Pairable(os[n]) && Undisputed(os[n]) && !Boundary(os[n].packet) && PairEvent(m, os[n]).Ok?
    ensures Agrees(g, os, n + 1, m0, PairEvent(m, os[n]).value)
  {
    hide Arrived, Holds, Agrees, AllBreaks, AllSpans, PairableStacks, Structured, Chronicle, Mismatched, Unmatched;
    var stack := StackOf(m.stacks, os[n].context.value);
    if os[n].packet.function_ == Some(Entry) {
      EntryAgrees(g, os, n, spans, m0, before, m);
    } else if stack == [] {
      UnmatchedAgrees(g, os, n, spans, m0, before, m);
    } else if stack[|stack| - 1].packet.address != os[n].packet.address {
      MismatchAgrees(g, os, n, spans, m0, before, m);
    } else {
      EntryNotLater(g, os, n, spans, m, stack[|stack| - 1]);
      ClosedAgrees(g, os, n, spans, m0, before, m, PairEvent(m, os[n]).value);
    }
  }

  lemma NoEventNoSpan(g: Generation, os: seq<Observation>, ds: seq<Discontinuity>, n: nat)
    requires n < |os| && !IsEvent(os[n], Exit)
    ensures SpansAt(g, os, ds, n) == [] && !Mismatched(g, os, ds, n)
  {
  }

  /** A packet that records nothing but its clock and is no event. */
  lemma PassAgrees(g: Generation, os: seq<Observation>, n: nat, spans: seq<Span>, m0: Machine, before: Machine,
                   m: Machine)
    requires n < |os| && Arrived(g, os, n, spans, m0, before) && Poised(g, os, n, m0, m)
    requires !IsEvent(os[n], Entry) && !IsEvent(os[n], Exit) && PacketReasons(g, os, AllBreaks(g, os, n), n) == []
    ensures Agrees(g, os, n + 1, m0, m)
  {
    hide Arrived, Holds, FoundAt, OpenAfter, AllBreaks, AllSpans, Indexed, PacketReasons, SpansAt, Between;
    NoEventNoSpan(g, os, AllBreaks(g, os, n), n);
    assert ClockReasons(os, n) + [] == ClockReasons(os, n);
    assert m0.spans + AllSpans(g, os, n) + [] == m0.spans + AllSpans(g, os, n);
    OpenAfterPacket(g, os, n, spans, m0, before);
    assert (set e | e in FoundAt(g, os, n) && !Closes(os, e, n)) == FoundAt(g, os, n);
    assert OpenAfter(g, os, n + 1) == FoundAt(g, os, n);
    HoldsPass(g, os, n, FoundAt(g, os, n), m, m);
    AgreesNext(g, os, n, m0, m);
  }

  lemma BoundaryAgrees(g: Generation, os: seq<Observation>, n: nat, spans: seq<Span>, m0: Machine, before: Machine,
                       m: Machine)
    requires n < |os| && Arrived(g, os, n, spans, m0, before) && Poised(g, os, n, m0, m)
    requires WellFormed(os[n].packet) && Boundary(os[n].packet)
    ensures Agrees(g, os, n + 1, m0, PassBoundary(m, os[n]))
  {
    NotPairable(os[n]);
    hide Arrived, Holds, FoundAt, AllBreaks, AllSpans, Indexed, Agrees, Breaks, IsEvent, WellFormed, Boundary;
    var ds, m' := AllBreaks(g, os, n), PassBoundary(m, os[n]);
    if PacketBarrier(os[n].packet) {
      NoEventNoSpan(g, os, ds, n);
      var reason := BarrierReason(os[n].packet);
      var counted := if reason == UnknownFunctionEvent
      then m.(stats := m.stats.(unknownFunctionEvents := m.stats.unknownFunctionEvents + 1)) else m;
      BarrierRecorded(g, os, n, m0, counted, ClockReasons(os, n), reason);
      BarredAgrees(g, os, n, spans, m0, before, m');
    } else {
      PassAgrees(g, os, n, spans, m0, before, m);
    }
  }

  /** Entering a segment records its reasons, if any, and leaves the stacks alone otherwise. */
  lemma SegmentRecorded(g: Generation, os: seq<Observation>, n: nat, m0: Machine, m: Machine, m': Machine)
    requires n < |os| && Poised(g, os, n, m0, m) && !Boundary(os[n].packet)
    requires if StartsSegment(os, n) then EnterSegment(m, os[n]) == Ok(m') else m' == m
    ensures var reasons := SegmentReasons(g, os, AllBreaks(g, os, n), n);
            && Recorded(g, os, n, m0, m', ClockReasons(os, n) + reasons) && m'.epoch == os[n].clockEpoch
            && (reasons == [] ==> Poised(g, os, n, m0, m'))
            && (reasons != [] ==> m'.stacks == map[] && m'.open == 0)
  {
    hide Indexed, AllBreaks, AllSpans, Breaks, Boundary, Recorded;
    assert ClockReasons(os, n) + [] == ClockReasons(os, n);
    var conflict := m.(stats := m.stats.(attributionConflicts := m.stats.attributionConflicts + 1));
    SameRecord(g, os, n, m0, m, conflict, ClockReasons(os, n));
    BarrierRecorded(g, os, n, m0, conflict, ClockReasons(os, n), AttributionConflict);
    BarrierRecorded(g, os, n, m0, m, ClockReasons(os, n), UnknownContext);
    SameRecord(g, os, n, m0, m, m.(contexts := m'.contexts), ClockReasons(os, n));
  }

  lemma SameRecord(g: Generation, os: seq<Observation>, n: nat, m0: Machine, m: Machine, m': Machine,
                   reasons: seq<Reason>)
    requires n < |os| && Recorded(g, os, n, m0, m, reasons)
    requires m'.discontinuities == m.discontinuities && m'.spans == m.spans
    ensures Recorded(g, os, n, m0, m', reasons)
  {
  }

  /** A packet of a segment that cannot be paired. */
  lemma UnpairedAgrees(g: Generation, os: seq<Observation>, n: nat, spans: seq<Span>, m0: Machine, before: Machine,
                       m: Machine)
    requires n < |os| && Arrived(g, os, n, spans, m0, before) && !Boundary(os[n].packet) && !Pairable(os[n])
    requires PairableStacks(m.stacks) && m.epoch == os[n].clockEpoch
    requires var reasons := SegmentReasons(g, os, AllBreaks(g, os, n), n);
             && Recorded(g, os, n, m0, m, ClockReasons(os, n) + reasons)
             && (reasons == [] ==> Poised(g, os, n, m0, m))
             && (reasons != [] ==> m.stacks == map[] && m.open == 0)
    ensures InSegment(m, os[n]).Ok? && Agrees(g, os, n + 1, m0, InSegment(m, os[n]).value)
  {
    hide Arrived, Holds, FoundAt, AllBreaks, AllSpans, Indexed, Agrees, Breaks, SegmentReasons, Recorded;
    var o, ds := os[n], AllBreaks(g, os, n);
    var so := ClockReasons(os, n) + SegmentReasons(g, os, ds, n);
    var counted, m' := CountUnattributed(m, o), InSegment(m, o).value;
    SameRecord(g, os, n, m0, m, counted, so);
    NoEventNoSpan(g, os, ds, n);
    assert so + [] == so;
    var events := EventReasons(g, os, ds, n);
    assert ReasonsAt(g, os, ds, n) == so + events;
    if events == [] {
      assert m' == counted;
      if SegmentReasons(g, os, ds, n) == [] {
        PoisedStays(g, os, n, m0, m, counted);
        PassAgrees(g, os, n, spans, m0, before, counted);
      } else {
        BarredAgrees(g, os, n, spans, m0, before, counted);
      }
    } else {
      assert events == [events[0]];
      var noted := if events[0] == UnknownFunctionClock
      then counted.(stats := counted.stats.(unknownClockEvents := counted.stats.unknownClockEvents + 1)) else counted;
      SameRecord(g, os, n, m0, counted, noted, so);
      BarrierRecorded(g, os, n, m0, noted, so, events[0]);
      BarredAgrees(g, os, n, spans, m0, before, m');
    }
  }

  lemma PoisedStays(g: Generation, os: seq<Observation>, n: nat, m0: Machine, m: Machine, m': Machine)
    requires n < |os| && Poised(g, os, n, m0, m)
    requires m'.discontinuities == m.discontinuities && m'.spans == m.spans && m'.epoch == m.epoch
    requires m'.stacks == m.stacks && m'.open == m.open
    ensures Poised(g, os, n, m0, m')
  {
    hide Indexed, AllBreaks, AllSpans, Breaks, FoundAt, Lists;
  }

  lemma InSegmentAgrees(g: Generation, os: seq<Observation>, n: nat, spans: seq<Span>, m0: Machine, before: Machine,
                        m: Machine)
    requires n < |os| && Arrived(g, os, n, spans, m0, before) && !Boundary(os[n].packet) && Undisputed(os[n])
    requires PairableStacks(m.stacks) && m.epoch == os[n].clockEpoch
    requires Structured(g, os, n, spans, m) && Chronicle(g, os)
    requires var reasons := SegmentReasons(g, os, AllBreaks(g, os, n), n);
             && Recorded(g, os, n, m0, m, ClockReasons(os, n) + reasons)
             && (reasons == [] ==> Poised(g, os, n, m0, m))
             && (reasons != [] ==> m.stacks == map[] && m.open == 0)
    requires InSegment(m, os[n]).Ok?
    ensures Agrees(g, os, n + 1, m0, InSegment(m, os[n]).value)
  {
    hide Arrived, Holds, AllBreaks, AllSpans, Indexed, Agrees, Structured, Recorded, Poised, Chronicle;
    if Pairable(os[n]) {
      var counted := CountUnattributed(m, os[n]);
      assert SegmentReasons(g, os, AllBreaks(g, os, n), n) == [];
      PoisedStays(g, os, n, m0, m, counted);
      SameStructureKeeps(g, os, n, spans, m, counted);
      PairEventAgrees(g, os, n, spans, m0, before, counted);
    } else {
      UnpairedAgrees(g, os, n, spans, m0, before, m);
    }
  }

  lemma StepAgrees(g: Generation, os: seq<Observation>, n: nat, spans: seq<Span>, m0: Machine, m: Machine)
    requires n < |os| && Arrived(g, os, n, spans, m0, m) && Undisputed(os[n]) && Step(m, os, n).Ok?
    ensures Agrees(g, os, n + 1, m0, Step(m, os, n).value)
  {
    hide Holds, AllBreaks, AllSpans, Agrees, Structured, Chronicle, Recorded, InSegment, Boundary, PassBoundary;
    hide AdvanceClock, EnterSegment, SegmentReasons, ClockReasons;
    var o := os[n];
    var m1 := AdvanceClock(m, o);
    ClockAgrees(g, os, n, spans, m0, m);
    ClockKeepsStructure(g, os, n, spans, m);
    ChronicleIndexed(g, os);
    ChronicleFormed(g, os, n);
    if Boundary(o.packet) {
      BoundaryAgrees(g, os, n, spans, m0, m, m1);
    } else {
      var m2 := m1;
      if n == 0 || Boundary(os[n - 1].packet) {
        m2 := EnterSegment(m1, o).value;
        EnterSettles(m1, o);
        SettlingKeepsStructure(g, os, n, spans, m1, m2);
      }
      SegmentRecorded(g, os, n, m0, m1, m2);
      NotBarrier(o.packet);
      InSegmentAgrees(g, os, n, spans, m0, m, m2);
    }
  }

  lemma NotBarrier(p: Packet)
    ensures !Boundary(p) ==> !PacketBarrier(p)
  {
  }

  lemma ChronicleFormed(g: Generation, os: seq<Observation>, n: nat)
    requires n < |os| && Chronicle(g, os)
    ensures WellFormed(os[n].packet)
  {
  }

  /** Over the packets of a generation the machine records exactly what counting says. */
  lemma {:induction false} RunAgrees(g: Generation, os: seq<Observation>, n: nat, spans: seq<Span>, m0: Machine)
    requires n <= |os| && Chronicle(g, os) && (forall i :: 0 <= i < |os| ==> Undisputed(os[i]))
    requires Structured(g, os, 0, spans, m0) && m0.stacks == map[] && m0.open == 0 && m0.epoch == 1
    requires Run(m0, os, n).Ok?
    ensures Agrees(g, os, n, m0, Run(m0, os, n).value)
  {
    hide Chronicle, Structured, Step, Holds, AllBreaks, AllSpans;
    if n == 0 {
      NothingYet(g, os, m0);
    } else {
      var m := Run(m0, os, n - 1).value;
      RunAgrees(g, os, n - 1, spans, m0);
      RunKeepsStructure(g, os, n - 1, spans, m0);
      StepAgrees(g, os, n - 1, spans, m0, m);
    }
  }

  lemma NothingYet(g: Generation, os: seq<Observation>, m: Machine)
    requires m.stacks == map[] && m.open == 0
    ensures Agrees(g, os, 0, m, m)
  {
    assert m.discontinuities + [] == m.discontinuities && m.spans + [] == m.spans;
    assert OpenAfter(g, os, 0) == {};
    HoldsNothing(g, os, 0, m);
  }
}
