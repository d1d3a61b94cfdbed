/** Across normalize.go and chrome.go: a report that Normalize builds from a picosecond
    capture is one that ChromeTrace accepts, up to its own two limits. */
module ChromeTheorem {

  import opened Prelude
  import opened TraceDecoder
  import opened TraceCapture
  import opened TraceReference
  import opened TraceStructure
  import opened TraceSoundness
  import opened ChromeExport
  import opened ChromeExporter
  import ChromeMeaning
  import opened TraceNormalizer

  /** Every 64-bit tag, signed or unsigned, prints in at most 21 characters. */
  lemma TagsAreShort(tag: int)
    requires -0x8000_0000_0000_0000 <= tag < 0x1_0000_0000_0000_0000
    ensures ShortEnough(tag)
  {
    Decimal.ParseFormat(if tag < 0 then -tag else tag);
  }

  /** An attributed context comes from a marker or the declaration, and is known. */
  lemma AttributedContext(ps: seq<Packet>, declared: Option<Context>, i: nat)
    requires i < |ps| && forall j :: 0 <= j < |ps| ==> WellFormed(ps[j])
    requires declared.Some? ==> ValidContext(declared.value)
    requires ps[i].tag.Some?
    ensures Nameable(Attribution(ps, declared, i).0)
  {
    hide ValidContext, Known;
    var j, k := PreviousBoundary(ps, i), NextBoundary(ps, i);
    assert j >= 0 ==> WellFormed(ps[j]);
    assert k < |ps| ==> WellFormed(ps[k]);
  }

  lemma ObservationExportable(c: Capture, profile: Profile, info: Info, k: nat, i: nat)
    requires ValidCapture(c, profile, info) && info.timebase == 3 && k < |c.generations|
    requires i < |c.generations[k].packets|
    ensures Exportable(GenerationObservations(c, profile, info, k)[i])
  {
    hide ValidContext, Known, Attribution, ShortEnough, Epoch, DecodeInfo;
    TimebaseIsPicoseconds(c, profile, info);
    var g := c.generations[k];
    var ps := Decoded(profile, g.packets);
    if ps[i].tag.Some? {
      TagsAreShort(ps[i].tag.value);
      AttributedContext(ps, DeclaredFor(c, k), i);
    }
  }

  lemma TimebaseIsPicoseconds(c: Capture, profile: Profile, info: Info)
    requires ValidCapture(c, profile, info)
    ensures info.unit == Picoseconds <==> info.timebase == 3
  {
  }

  /** Where the observations of generation k stand in the report. */
  lemma {:induction false} GenerationWithin(c: Capture, profile: Profile, info: Info, k: nat, n: nat)
    requires k < n <= |c.generations| && ValidGenerations(profile, c.generations)
    ensures var all, os := AllObservations(c, profile, info, n), GenerationObservations(c, profile, info, k);
            var base := |AllObservations(c, profile, info, k)|;
            base + |os| <= |all| && all[base..base + |os|] == os
  {
    hide GenerationObservations, ValidGeneration;
    if k < n - 1 {
      GenerationWithin(c, profile, info, k, n - 1);
    }
  }

  lemma {:induction false} AllObservationsExportable(c: Capture, profile: Profile, info: Info, n: nat)
    requires ValidCapture(c, profile, info) && info.timebase == 3 && n <= |c.generations|
    ensures forall o :: o in AllObservations(c, profile, info, n) ==> Exportable(o)
  {
    hide Exportable, GenerationObservations, ValidGeneration, DecodeInfo, ProfileForVersion, ValidContext;
    if n > 0 {
      AllObservationsExportable(c, profile, info, n - 1);
      var os := GenerationObservations(c, profile, info, n - 1);
      GenerationLength(c, profile, info, n - 1);
      forall o | o in os
        ensures Exportable(o)
      {
        var i :| 0 <= i < |os| && os[i] == o;
        ObservationExportable(c, profile, info, n - 1, i);
      }
    }
  }

  lemma GenerationLength(c: Capture, profile: Profile, info: Info, k: nat)
    requires k < |c.generations| && ValidGenerations(profile, c.generations)
    ensures var os := GenerationObservations(c, profile, info, k);
            && |os| == |c.generations[k].packets|
            && forall i :: 0 <= i < |os| ==> os[i].generation == c.generations[k].id
  {
  }

  /** A span found in generation k lies within its clock domain's observed times. */
  lemma SpanIsExportable(c: Capture, profile: Profile, info: Info, k: nat, s: Span)
    requires ValidCapture(c, profile, info) && info.timebase == 3 && k < |c.generations|
    requires SpanFrom(c, profile, info, k, s)
    ensures SpanExportable(AllObservations(c, profile, info, |c.generations|), s)
  {
    hide AllObservations, GenerationObservations, Nameable, Origin;
    hide ShortEnough, DecodeInfo, ProfileForVersion, ValidContext;
    var n := |c.generations|;
    var os, all := GenerationObservations(c, profile, info, k), AllObservations(c, profile, info, n);
    var e, x := s.entryIndex - c.generations[k].firstIndex, s.exitIndex - c.generations[k].firstIndex;
    GenerationLength(c, profile, info, k);
    ObservationExportable(c, profile, info, k, e);
    ObservationExportable(c, profile, info, k, x);
    GenerationWithin(c, profile, info, k, n);
    var base := |AllObservations(c, profile, info, k)|;
    assert all[base + e] == all[base..base + |os|][e] == os[e];
    OriginLeast(all, |all|, base + e);
  }

  /** A picosecond capture that Normalize accepts yields a report that passes every check
      of ChromeTrace but its two limits. */
  lemma NormalizedReportIsReady(c: Capture, profile: Profile, info: Info)
    requires ValidCapture(c, profile, info) && info.timebase == 3 && Normalized(c, profile, info).Ok?
    ensures Ready(Normalized(c, profile, info).value)
  {
    hide AllObservations, RunGenerations, Exportable, SpanExportable, DecodeInfo;
    hide ProfileForVersion, ValidContext, ValidGeneration;
    hide SpanFrom, WellNested, NoneStraddles;
    var r := Normalized(c, profile, info).value;
    TimebaseIsPicoseconds(c, profile, info);
    ReportConservesEvents(c, profile, info);
    ReportBudget(c, profile, info);
    ObservationTotal(c, profile, info, |c.generations|);
    AllObservationsExportable(c, profile, info, |c.generations|);
    ReportSpans(c, profile, info);
    forall s | s in r.spans
      ensures SpanExportable(r.observations, s)
    {
      var k :| 0 <= k < |c.generations| && SpanFrom(c, profile, info, k, s);
      SpanIsExportable(c, profile, info, k, s);
    }
  }

  /** trace export end to end: a picosecond capture within the normalizer's limits fails to
      export only for too many clock domains or too many tracks. */
  method NormalizeAndExport(c: Capture)
    returns (report: Result<Report, NormalizeError>, trace: Result<Trace, ExportError>)
    ensures forall profile, info :: ValidCapture(c, profile, info) ==>
                                      match Normalized(c, profile, info)
                                      case Ok(built) => report == Ok(built)
                                      case Err(limit) => report == Err(LimitExceeded(limit))
    ensures (forall profile, info :: !ValidCapture(c, profile, info)) ==> report.Err? && report.error.InvalidCapture?
    ensures report.Ok? && report.value.info.timebase == 3 ==>
              && (trace.Ok? <==> && |Domains(report.value.observations)| <= MAX_TRACE_TRACKS
                                 && |AllTracks(report.value)| <= MAX_TRACE_TRACKS)
              && (trace.Err? ==> trace.error == ClockDomainLimit || trace.error == TrackLimit)
    ensures report.Ok? && trace.Ok? ==> ChromeMeaning.Shows(report.value, trace.value)
    ensures report.Ok? && report.value.info.timebase != 3 ==> trace == Err(NotPicoseconds)
  {
    hide Ready, Domains, AllTracks, RunGenerations, AllObservations, ValidCapture, Renders, ChromeMeaning.Shows;
    report := Normalize(c);
    if report.Err? {
      return report, Err(NotPicoseconds);
    }
    ghost var order, pids, tracks;
    trace, order, pids, tracks := ChromeTrace(report.value);
    if report.value.info.timebase == 3 {
      var profile, info :| ValidCapture(c, profile, info);
      NormalizedReportIsReady(c, profile, info);
    }
  }

  // ---------- What the emitted events mean ----------

  /** Every emitted packet time is the exact non-negative offset from its clock's origin. */
  lemma PacketTimeExact(r: Report, pids: map<Domain, int>, tracks: Tracks, i: nat)
    requires Ready(r) && i < |r.observations| && r.observations[i].timestamp.Some?
    ensures var o := r.observations[i];
            && o.timestamp.value.value.Some?
            && var text := RenderPacket(r, pids, tracks, o).timestamp;
            var origin := Origin(r.observations, |r.observations|, DomainOf(o));
            && origin.Some? && origin.value <= o.timestamp.value.value.value
            && Decimal.IsDecimal(text)
            && Decimal.RealValue(text) == (o.timestamp.value.value.value - origin.value) as real / 1_000_000.0
  {
    hide Origin, Decimal.IsDecimal, Decimal.RealValue, ChromeTime.PicosecondsToMicroseconds;
    hide SpanExportable, Nameable, ShortEnough;
    var o := r.observations[i];
    assert Exportable(o);
    OriginLeast(r.observations, |r.observations|, i);
    var origin := Origin(r.observations, |r.observations|, DomainOf(o)).value;
    ChromeTime.MicrosecondsExact(o.timestamp.value.value.value - origin);
  }

  /** So are a span's start, and its duration is exact as well. */
  lemma SpanTimeExact(r: Report, pids: map<Domain, int>, tracks: Tracks, s: Span)
    requires Ready(r) && s in r.spans
    ensures var e := RenderSpan(r, pids, tracks, s);
            var origin := Origin(r.observations, |r.observations|, SpanDomain(s));
            && origin.Some? && Decimal.IsDecimal(e.timestamp) && Decimal.IsDecimal(e.duration)
            && Decimal.RealValue(e.timestamp) == (s.start - origin.value) as real / 1_000_000.0
            && Decimal.RealValue(e.duration) == (s.end - s.start) as real / 1_000_000.0
  {
    hide Origin, Decimal.IsDecimal, Decimal.RealValue, ChromeTime.PicosecondsToMicroseconds;
    hide Exportable, Nameable, ShortEnough;
    assert SpanExportable(r.observations, s);
    var origin := Origin(r.observations, |r.observations|, SpanDomain(s)).value;
    ChromeTime.MicrosecondsExact(s.start - origin);
    ChromeTime.MicrosecondsExact(s.end - s.start);
  }

  /** Different tasks never share a track key, and none is mistaken for the unknown task. */
  lemma TrackKeysDistinct(a: Option<Context>, b: Option<Context>)
    requires Nameable(a) && Nameable(b) && TrackKey(a) == TrackKey(b)
    ensures a == b
  {
    KeyShape(a);
    KeyShape(b);
  }

  /** A key's text up to its first colon, if it has one, is its task number. */
  lemma KeyShape(c: Option<Context>)
    requires Nameable(c)
    ensures if c.None? then ':' !in TrackKey(c)
            else
              var n := FirstColon(TrackKey(c));
              && n < |TrackKey(c)| && ':' in TrackKey(c)
              && c == Some(Context(TrackKey(c)[..n], TrackKey(c)[n + 1..]))
  {
    if c.Some? {
      var a, x := c.value.taskId, c.value.addressSpaceId;
      ColonAfter(a, x);
      var key := TrackKey(c);
      assert key[|a|] == ':' && key[..|a|] == a && key[|a| + 1..] == x;
    }
  }

  function FirstColon(s: string): (n: nat)
    ensures n <= |s|
  {
    if s == "" || s[0] == ':' then 0 else 1 + FirstColon(s[1..])
  }

  lemma {:induction false} ColonAfter(a: string, x: string)
    requires Decimal.AllDigits(a)
    ensures FirstColon(a + ":" + x) == |a|
  {
    if a == "" {
      assert a + ":" + x == ":" + x;
    } else {
      ColonAfter(a[1..], x);
      assert (a + ":" + x)[1..] == a[1..] + ":" + x;
    }
  }
}
