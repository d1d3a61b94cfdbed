/** The same about a finished report, in its own terms: which spans must be in it, where its
    discontinuities lie and why, and what becomes of every exit. */
module TraceReport {

  import opened Prelude
  import opened TraceDecoder
  import opened TraceCapture
  import opened TraceReference
  import opened TraceStructure
  import opened TraceBudget
  import opened TraceSoundness
  import opened TracePairing
  import opened TraceExact

  // ---------- Partners ----------

  lemma {:induction false} BetweenSplit(os: seq<Observation>, c: Context, e: nat, f: nat, n: nat)
    requires e < f < n <= |os|
    ensures Between(os, c, e, n) == Between(os, c, e, f) + Delta(os[f], c) + Between(os, c, f, n)
  {
    hide Delta;
    if f + 1 < n { BetweenSplit(os, c, e, f, n - 1); }
  }

  /** An entry that is open before another of its task has that one between it and the exit. */
  lemma EarlierDeeper(os: seq<Observation>, e: nat, f: nat, x: nat)
    requires e < f < x < |os| && IsEvent(os[e], Entry) && Unclosed(os, e, x)
    requires OfTask(os[f], os[e].context.value, Entry) && Between(os, os[e].context.value, f, x) == 0
    ensures Between(os, os[e].context.value, e, x) >= 1
  {
    hide Between;
    BetweenSplit(os, os[e].context.value, e, f, x);
    assert Between(os, os[e].context.value, e, f) >= 0;
  }

  /** An exit closes at most one entry. */
  lemma PartnerUnique(g: Generation, os: seq<Observation>, ds: seq<Discontinuity>, e: int, f: int, x: nat)
    requires x < |os| && Partner(g, os, ds, e, x) && Partner(g, os, ds, f, x)
    ensures e == f
  {
    hide Between, Broken, Unclosed;
    if e < f { EarlierDeeper(os, e, f, x); }
    if f < e { EarlierDeeper(os, f, e, x); }
  }

  // ---------- Only earlier discontinuities matter ----------

  /** The two lists hold the same discontinuities of the generation before packet n. */
  ghost predicate Alike(g: Generation, ds: seq<Discontinuity>, ds': seq<Discontinuity>, n: nat) {
    forall d: Discontinuity :: d.generation == g.id && g.firstIndex < d.index < g.firstIndex + n
                               ==> (d in ds <==> d in ds')
  }

  lemma AlikeOpen(g: Generation, os: seq<Observation>, ds: seq<Discontinuity>, ds': seq<Discontinuity>, n: nat, e: int)
    requires n <= |os| && Alike(g, ds, ds', n)
    ensures Open(g, os, ds, e, n) <==> Open(g, os, ds', e, n)
  {
    hide Unclosed;
    if 0 <= e < n {
      assert Broken(g, ds, e, n) <==> Broken(g, ds', e, n);
    }
  }

  lemma AlikeFound(g: Generation, os: seq<Observation>, ds: seq<Discontinuity>, ds': seq<Discontinuity>, n: nat)
    requires n < |os| && Alike(g, ds, ds', n)
    ensures Found(g, os, ds, n) == Found(g, os, ds', n)
    ensures forall c :: FoundOf(g, os, ds, n, c) == FoundOf(g, os, ds', n, c)
    ensures forall e :: Partner(g, os, ds, e, n) <==> Partner(g, os, ds', e, n)
  {
    hide Open, Alike, Between;
    forall e ensures Open(g, os, ds, e, n) <==> Open(g, os, ds', e, n) {
      AlikeOpen(g, os, ds, ds', n, e);
    }
    assert Found(g, os, ds, n) == Found(g, os, ds', n);
    forall c ensures FoundOf(g, os, ds, n, c) == FoundOf(g, os, ds', n, c) {}
  }

  lemma AlikeReasons(g: Generation, os: seq<Observation>, ds: seq<Discontinuity>, ds': seq<Discontinuity>, n: nat)
    requires n < |os| && Alike(g, ds, ds', n)
    ensures ReasonsAt(g, os, ds, n) == ReasonsAt(g, os, ds', n)
    ensures Mismatched(g, os, ds, n) <==> Mismatched(g, os, ds', n)
    ensures Unmatched(g, os, ds, n) <==> Unmatched(g, os, ds', n)
  {
    hide Found, Partner, Alike, ClockReasons;
    AlikeFound(g, os, ds, ds', n);
  }

  // ---------- Discontinuities of one generation ----------

  lemma {:induction false} BreaksGrow(g: Generation, os: seq<Observation>, x: nat, n: nat, d: Discontinuity)
    requires x <= n <= |os| && Indexed(g, os)
    ensures d in AllBreaks(g, os, x) ==> d in AllBreaks(g, os, n)
    ensures d in AllBreaks(g, os, n) && d.index < g.firstIndex + x ==> d in AllBreaks(g, os, x)
    ensures d in AllBreaks(g, os, n) ==> d.generation == g.id && g.firstIndex <= d.index < g.firstIndex + n
  {
    hide ReasonsAt;
    if x < n {
      BreaksGrow(g, os, x, n - 1, d);
    } else {
      BreaksEarlier(g, os, n);
    }
  }

  /** A discontinuity at packet x is one of its reasons. */
  lemma BreakAt(g: Generation, os: seq<Observation>, x: nat, n: nat, d: Discontinuity)
    requires x < n <= |os| && Indexed(g, os) && d.index == g.firstIndex + x
    ensures d in AllBreaks(g, os, n) <==> d in Breaks(os[x], ReasonsAt(g, os, AllBreaks(g, os, x), x))
  {
    hide ReasonsAt, Breaks;
    BreaksGrow(g, os, x + 1, n, d);
    BreaksEarlier(g, os, x);
    assert AllBreaks(g, os, x + 1) == AllBreaks(g, os, x) + Breaks(os[x], ReasonsAt(g, os, AllBreaks(g, os, x), x));
  }

  lemma BreaksHave(o: Observation, reasons: seq<Reason>, d: Discontinuity)
    ensures d in Breaks(o, reasons) <==>
            d.generation == o.generation && d.clockEpoch == o.clockEpoch && d.index == o.index && d.reason in reasons
  {
    if d.reason in reasons {
      var i :| 0 <= i < |reasons| && reasons[i] == d.reason;
      assert Breaks(o, reasons)[i] == Discontinuity(o.generation, o.clockEpoch, o.index, d.reason);
    }
  }

  lemma GenerationIndexed(c: Capture, profile: Profile, info: Info, k: nat)
    requires ValidK(c, profile, k)
    ensures Indexed(c.generations[k], GenerationObservations(c, profile, info, k))
    ensures |GenerationObservations(c, profile, info, k)| == |c.generations[k].packets|
  {
    hide GenerationObservations, ValidGenerations, Chronicle;
    GenerationIsValid(c.generations, profile, k);
    GenerationChronicle(c, profile, info, k);
    ChronicleIndexed(c.generations[k], GenerationObservations(c, profile, info, k));
    GenerationCount(c, profile, info, k);
  }

  /** The discontinuities of generation k in a whole report are those of generation k. */
  lemma {:induction false} BreaksOfGeneration(c: Capture, profile: Profile, info: Info, n: nat,
                                              k: nat, d: Discontinuity)
    requires n <= |c.generations| && ValidK(c, profile, k) && d.generation == c.generations[k].id
    ensures d in BreaksOf(c, profile, info, n) <==> k < n && d in GenerationBreaks(c, profile, info, k)
  {
    hide GenerationBreaks, ValidGenerations;
    if n > 0 {
      BreaksOfGeneration(c, profile, info, n - 1, k, d);
      if d in GenerationBreaks(c, profile, info, n - 1) {
        OwnBreaks(c, profile, info, n - 1, d);
        OneId(c.generations, profile, n - 1, k);
      }
    }
  }

  lemma OneId(gs: seq<Generation>, profile: Profile, j: nat, k: nat)
    requires ValidGenerations(profile, gs) && j < |gs| && k < |gs| && gs[j].id == gs[k].id
    ensures j == k
  {
    hide ValidGeneration;
  }

  lemma OwnBreaks(c: Capture, profile: Profile, info: Info, k: nat, d: Discontinuity)
    requires ValidK(c, profile, k) && d in GenerationBreaks(c, profile, info, k)
    ensures d.generation == c.generations[k].id
  {
    hide GenerationObservations, ValidGenerations, AllBreaks;
    GenerationIsValid(c.generations, profile, k);
    var g, os := c.generations[k], GenerationObservations(c, profile, info, k);
    GenerationIndexed(c, profile, info, k);
    BreaksGrow(g, os, |os|, |os|, d);
  }

  /** What a report holds of generation k before packet x is what counting found there. */
  lemma ReportAlike(c: Capture, profile: Profile, info: Info, k: nat, x: nat)
    requires ValidK(c, profile, k) && x < |GenerationObservations(c, profile, info, k)|
    ensures var g, os := c.generations[k], GenerationObservations(c, profile, info, k);
            Alike(g, BreaksOf(c, profile, info, |c.generations|), AllBreaks(g, os, x), x)
  {
    hide GenerationObservations, ValidGenerations, AllBreaks, BreaksOf;
    GenerationIsValid(c.generations, profile, k);
    var g, os := c.generations[k], GenerationObservations(c, profile, info, k);
    GenerationIndexed(c, profile, info, k);
    forall d: Discontinuity | d.generation == g.id && g.firstIndex < d.index < g.firstIndex + x
      ensures d in BreaksOf(c, profile, info, |c.generations|) <==> d in AllBreaks(g, os, x)
    {
      BreaksOfGeneration(c, profile, info, |c.generations|, k, d);
      BreaksGrow(g, os, x, |os|, d);
    }
  }

  // ---------- Spans of one generation ----------

  lemma SpanEnds(g: Generation, os: seq<Observation>, ds: seq<Discontinuity>, x: nat, s: Span)
    requires x < |os| && Indexed(g, os) && s in SpansAt(g, os, ds, x)
    ensures s.generation == g.id && s.exitIndex == g.firstIndex + x
  {
    hide Partner;
  }

  lemma {:induction false} SpanAt(g: Generation, os: seq<Observation>, x: nat, n: nat, s: Span)
    requires x < n <= |os| && Indexed(g, os) && s.exitIndex == g.firstIndex + x
    ensures s in AllSpans(g, os, n) <==> s in SpansAt(g, os, AllBreaks(g, os, x), x)
  {
    hide SpansAt, AllBreaks, Indexed;
    if n == x + 1 {
      if s in AllSpans(g, os, x) { NoSpanLater(g, os, x, s); }
    } else {
      SpanAt(g, os, x, n - 1, s);
      if s in SpansAt(g, os, AllBreaks(g, os, n - 1), n - 1) { SpanEnds(g, os, AllBreaks(g, os, n - 1), n - 1, s); }
    }
  }

  lemma {:induction false} NoSpanLater(g: Generation, os: seq<Observation>, n: nat, s: Span)
    requires n <= |os| && Indexed(g, os) && s in AllSpans(g, os, n)
    ensures s.generation == g.id && s.exitIndex < g.firstIndex + n
  {
    hide SpansAt, AllBreaks, Indexed;
    if n > 0 {
      if s in AllSpans(g, os, n - 1) {
        NoSpanLater(g, os, n - 1, s);
      } else {
        SpanEnds(g, os, AllBreaks(g, os, n - 1), n - 1, s);
      }
    }
  }

  lemma {:induction false} SpansOfGeneration(c: Capture, profile: Profile, info: Info, n: nat, k: nat, s: Span)
    requires n <= |c.generations| && ValidK(c, profile, k) && s.generation == c.generations[k].id
    ensures s in SpansOf(c, profile, info, n) <==> k < n && s in GenerationSpans(c, profile, info, k)
  {
    hide GenerationSpans, ValidGenerations;
    if n > 0 {
      SpansOfGeneration(c, profile, info, n - 1, k, s);
      if s in GenerationSpans(c, profile, info, n - 1) {
        OwnSpans(c, profile, info, n - 1, s);
        OneId(c.generations, profile, n - 1, k);
      }
    }
  }

  lemma OwnSpans(c: Capture, profile: Profile, info: Info, k: nat, s: Span)
    requires ValidK(c, profile, k) && s in GenerationSpans(c, profile, info, k)
    ensures s.generation == c.generations[k].id
  {
    hide GenerationObservations, ValidGenerations, AllSpans;
    GenerationIsValid(c.generations, profile, k);
    var g, os := c.generations[k], GenerationObservations(c, profile, info, k);
    GenerationIndexed(c, profile, info, k);
    NoSpanLater(g, os, |os|, s);
  }

  // ---------- The theorems ----------

  /** A report of a valid capture, and packet x of its generation k. */
  ghost predicate Reports(c: Capture, profile: Profile, info: Info, r: Report, k: nat, x: nat) {
    && ValidCapture(c, profile, info) && Normalized(c, profile, info) == Ok(r)
    && ValidK(c, profile, k) && x < |GenerationObservations(c, profile, info, k)|
  }

  lemma ReportHolds(c: Capture, profile: Profile, info: Info, r: Report, k: nat, x: nat)
    requires Reports(c, profile, info, r, k, x)
    ensures r.spans == SpansOf(c, profile, info, |c.generations|)
    ensures r.discontinuities == BreaksOf(c, profile, info, |c.generations|)
  {
    hide ValidGenerations, BreaksOf, SpansOf, StatsOf, WithinLimits, FirstLimit, Normalized, GenerationObservations;
    ReportIsExact(c, profile, info);
  }

  /** Where the discontinuities of a report lie, and why: packet x is one for a reason if and only if
      the reason is its own, told from the observations and the earlier discontinuities alone. */
  lemma BreaksExactly(c: Capture, profile: Profile, info: Info, r: Report, k: nat, x: nat, reason: Reason)
    requires Reports(c, profile, info, r, k, x) && !reason.GenerationReason?
    ensures var g, os := c.generations[k], GenerationObservations(c, profile, info, k);
            var d := Discontinuity(g.id, os[x].clockEpoch, os[x].index, reason);
            d in r.discontinuities <==> reason in ReasonsAt(g, os, r.discontinuities, x)
  {
    hide ValidGenerations, BreaksOf, SpansOf, Normalized, GenerationObservations, AllBreaks, ReasonsAt, ValidCapture;
    hide DecodeInfo;
    GenerationIsValid(c.generations, profile, k);
    var g, os := c.generations[k], GenerationObservations(c, profile, info, k);
    var d := Discontinuity(g.id, os[x].clockEpoch, os[x].index, reason);
    ReportHolds(c, profile, info, r, k, x);
    GenerationIndexed(c, profile, info, k);
    BreaksOfGeneration(c, profile, info, |c.generations|, k, d);
    BreakAt(g, os, x, |os|, d);
    BreaksHave(os[x], ReasonsAt(g, os, AllBreaks(g, os, x), x), d);
    ReportAlike(c, profile, info, k, x);
    AlikeReasons(g, os, r.discontinuities, AllBreaks(g, os, x), x);
  }

  /** Which spans end at packet x: those of the pair it completes, and no other. */
  lemma SpansExactly(c: Capture, profile: Profile, info: Info, r: Report, k: nat, x: nat, s: Span)
    requires Reports(c, profile, info, r, k, x)
    requires s.generation == c.generations[k].id && s.exitIndex == c.generations[k].firstIndex + x
    ensures var g, os := c.generations[k], GenerationObservations(c, profile, info, k);
            s in r.spans <==> s in SpansAt(g, os, AllBreaks(g, os, x), x)
  {
    hide ValidGenerations, BreaksOf, SpansOf, Normalized;
    hide GenerationObservations, AllBreaks, SpansAt, ValidCapture, AllSpans;
    GenerationIsValid(c.generations, profile, k);
    var g, os := c.generations[k], GenerationObservations(c, profile, info, k);
    ReportHolds(c, profile, info, r, k, x);
    GenerationIndexed(c, profile, info, k);
    SpansOfGeneration(c, profile, info, |c.generations|, k, s);
    SpanAt(g, os, x, |os|, s);
  }

  /** A span of the report ends at packet x. */
  ghost predicate Completed(r: Report, o: Observation) {
    exists s :: s in r.spans && s.generation == o.generation && s.exitIndex == o.index
  }

  ghost predicate MismatchedAt(r: Report, o: Observation) {
    Discontinuity(o.generation, o.clockEpoch, o.index, FunctionExitMismatch) in r.discontinuities
  }

  /** What SpansAt is, once the partner is known. */
  lemma SpansAtPartner(g: Generation, os: seq<Observation>, ds: seq<Discontinuity>, x: nat, e: int)
    requires x < |os| && Partner(g, os, ds, e, x)
    ensures SpansAt(g, os, ds, x)
         == if os[e].packet.address == os[x].packet.address
            then [SpanOf(os[e], os[x], |FoundOf(g, os, ds, x, os[x].context.value) - {e}|)] else []
    ensures Mismatched(g, os, ds, x) <==> os[e].packet.address != os[x].packet.address
    ensures !Unmatched(g, os, ds, x)
  {
    forall f | Partner(g, os, ds, f, x) ensures f == e {
      PartnerUnique(g, os, ds, e, f, x);
    }
    assert e in FoundOf(g, os, ds, x, os[x].context.value);
    hide Partner, FoundOf;
  }

  lemma SpansAtNone(g: Generation, os: seq<Observation>, ds: seq<Discontinuity>, x: nat)
    requires x < |os| && forall e :: !Partner(g, os, ds, e, x)
    ensures SpansAt(g, os, ds, x) == [] && !Mismatched(g, os, ds, x)
  {
    hide Partner;
  }

  /** Every exit of every report, by the entry e it closes, found by counting alone: if they belong
      to one function, exactly their span ends there; if not, there is a mismatch and no span. */
  lemma ExitWithPartner(c: Capture, profile: Profile, info: Info, r: Report, k: nat, x: nat, e: int)
    requires Reports(c, profile, info, r, k, x)
    requires Partner(c.generations[k], GenerationObservations(c, profile, info, k), r.discontinuities, e, x)
    ensures var g, os := c.generations[k], GenerationObservations(c, profile, info, k);
            var around := FoundOf(g, os, r.discontinuities, x, os[x].context.value) - {e};
            if os[e].packet.address == os[x].packet.address
            then SpanOf(os[e], os[x], |around|) in r.spans && !MismatchedAt(r, os[x])
            else !Completed(r, os[x]) && MismatchedAt(r, os[x])
  {
    hide ValidGenerations, Normalized, GenerationObservations, AllBreaks;
    hide SpansAt, ValidCapture, Partner, FoundOf, SpanOf;
    hide Alike, Unmatched, Mismatched;
    GenerationIsValid(c.generations, profile, k);
    var g, os := c.generations[k], GenerationObservations(c, profile, info, k);
    var ds, ds' := r.discontinuities, AllBreaks(g, os, x);
    GenerationIndexed(c, profile, info, k);
    ReportHolds(c, profile, info, r, k, x);
    ReportAlike(c, profile, info, k, x);
    AlikeFound(g, os, ds, ds', x);
    AlikeReasons(g, os, ds, ds', x);
    SpansAtPartner(g, os, ds', x, e);
    PartnerIsEvent(g, os, ds, e, x);
    MismatchExactly(c, profile, info, r, k, x);
    if os[e].packet.address == os[x].packet.address {
      var s := SpanOf(os[e], os[x], |FoundOf(g, os, ds, x, os[x].context.value) - {e}|);
      SpanEnds(g, os, ds', x, s);
      SpansExactly(c, profile, info, r, k, x, s);
    } else {
      forall s | s in r.spans && s.generation == g.id ensures s.exitIndex != os[x].index {
        if s.exitIndex == os[x].index { SpansExactly(c, profile, info, r, k, x, s); }
      }
    }
  }

  lemma PartnerIsEvent(g: Generation, os: seq<Observation>, ds: seq<Discontinuity>, e: int, x: nat)
    requires x < |os| && Partner(g, os, ds, e, x)
    ensures IsEvent(os[x], Exit) && 0 <= e < x && IsEvent(os[e], Entry)
  {
  }

  lemma MismatchExactly(c: Capture, profile: Profile, info: Info, r: Report, k: nat, x: nat)
    requires Reports(c, profile, info, r, k, x) && IsEvent(GenerationObservations(c, profile, info, k)[x], Exit)
    ensures var g, os := c.generations[k], GenerationObservations(c, profile, info, k);
            MismatchedAt(r, os[x]) <==> Mismatched(g, os, r.discontinuities, x)
  {
    hide ValidGenerations, Normalized, GenerationObservations, ValidCapture, Mismatched, PacketBarrier;
    GenerationIsValid(c.generations, profile, k);
    var g, os := c.generations[k], GenerationObservations(c, profile, info, k);
    GenerationIndexed(c, profile, info, k);
    BreaksExactly(c, profile, info, r, k, x, FunctionExitMismatch);
    EventInside(c, profile, info, k, x);
  }

  lemma EventInside(c: Capture, profile: Profile, info: Info, k: nat, x: nat)
    requires ValidK(c, profile, k) && x < |GenerationObservations(c, profile, info, k)|
    requires IsEvent(GenerationObservations(c, profile, info, k)[x], Exit)
    ensures !Boundary(GenerationObservations(c, profile, info, k)[x].packet)
    ensures !PacketBarrier(GenerationObservations(c, profile, info, k)[x].packet)
  {
    hide GenerationObservations, Chronicle, ValidGenerations, IsEvent, Boundary;
    GenerationIsValid(c.generations, profile, k);
    var os := GenerationObservations(c, profile, info, k);
    GenerationChronicle(c, profile, info, k);
    ChronicleFormed(c.generations[k], os, x);
    if Boundary(os[x].packet) { NotPairable(os[x]); }
    NotBarrier(os[x].packet);
  }

  /** And an exit that closes nothing is just counted: no span ends there and it is no mismatch. */
  lemma ExitWithoutPartner(c: Capture, profile: Profile, info: Info, r: Report, k: nat, x: nat)
    requires Reports(c, profile, info, r, k, x)
    requires IsEvent(GenerationObservations(c, profile, info, k)[x], Exit)
    requires forall e :: !Partner(c.generations[k], GenerationObservations(c, profile, info, k),
                                  r.discontinuities, e, x)
    ensures var os := GenerationObservations(c, profile, info, k); !Completed(r, os[x]) && !MismatchedAt(r, os[x])
  {
    hide ValidGenerations, Normalized, GenerationObservations, AllBreaks, SpansAt, ValidCapture, Partner, Alike;
    GenerationIsValid(c.generations, profile, k);
    var g, os := c.generations[k], GenerationObservations(c, profile, info, k);
    var ds, ds' := r.discontinuities, AllBreaks(g, os, x);
    GenerationIndexed(c, profile, info, k);
    ReportHolds(c, profile, info, r, k, x);
    ReportAlike(c, profile, info, k, x);
    AlikeFound(g, os, ds, ds', x);
    SpansAtNone(g, os, ds', x);
    SpansAtNone(g, os, ds, x);
    MismatchExactly(c, profile, info, r, k, x);
    forall s | s in r.spans && s.generation == g.id ensures s.exitIndex != os[x].index {
      if s.exitIndex == os[x].index { SpansExactly(c, profile, info, r, k, x, s); }
    }
  }
}
