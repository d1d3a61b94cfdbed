/** The export procedure of internal/timemachine/chrome.go. */
module ChromeExporter {

  import opened Prelude
  import opened TraceDecoder
  import opened TraceCapture
  import opened TraceReference
  import opened ChromeTime
  import opened ChromeExport
  import ChromeMeaning

  // ---------- Small facts about the rendering ----------

  predicate Extends(tracks: Tracks, tracks': Tracks) {
    forall d, k :: d in tracks && k in tracks[d] ==> d in tracks' && k in tracks'[d] && tracks'[d][k] == tracks[d][k]
  }

  /** Later tracks do not move the packets already rendered. */
  lemma {:induction false} RenderedPacketsStay(r: Report, pids: map<Domain, int>, tracks: Tracks, tracks': Tracks,
                                               n: nat)
    requires n <= |r.observations| && Extends(tracks, tracks') && UsedTracks(r, n, 0) <= Pairs(tracks)
    ensures RenderPackets(r, pids, tracks, n) == RenderPackets(r, pids, tracks', n)
  {
    if n > 0 {
      UsedByOne(r, n - 1);
      RenderedPacketsStay(r, pids, tracks, tracks', n - 1);
    }
  }

  lemma UsedByOne(r: Report, n: nat)
    requires n < |r.observations|
    ensures var o := r.observations[n];
            UsedTracks(r, n + 1, 0)
            == UsedTracks(r, n, 0) + if o.timestamp.Some? then {(DomainOf(o), TrackKey(o.context))} else {}
  {
    assert r.observations[..n + 1] == r.observations[..n] + [r.observations[n]];
    assert r.spans[..0] == [];
  }

  lemma UsedByPackets(r: Report, j: nat)
    requires j <= |r.spans|
    ensures UsedTracks(r, |r.observations|, 0) <= UsedTracks(r, |r.observations|, j)
  {
  }

  lemma UsedBySpan(r: Report, n: nat)
    requires n < |r.spans|
    ensures var s := r.spans[n];
            UsedTracks(r, |r.observations|, n + 1)
            == UsedTracks(r, |r.observations|, n) + {(SpanDomain(s), TrackKey(Some(s.context)))}
  {
    assert r.spans[..n + 1] == r.spans[..n] + [r.spans[n]];
  }

  lemma {:induction false} RenderedSpansStay(r: Report, pids: map<Domain, int>, tracks: Tracks, tracks': Tracks, n: nat)
    requires n <= |r.spans| && Extends(tracks, tracks') && UsedTracks(r, |r.observations|, n) <= Pairs(tracks)
    ensures RenderSpans(r, pids, tracks, n) == RenderSpans(r, pids, tracks', n)
  {
    if n > 0 {
      UsedBySpan(r, n - 1);
      RenderedSpansStay(r, pids, tracks, tracks', n - 1);
    }
  }

  lemma EventAppended(events: seq<TraceEvent>, e: TraceEvent)
    ensures PacketEvents(events + [e]) == PacketEvents(events) + (if e.PacketEvent? then [e] else [])
    ensures SpanEvents(events + [e]) == SpanEvents(events) + (if e.SpanEvent? then [e] else [])
  {
    assert (events + [e])[..|events|] == events;
  }

  /** Giving a new key of a domain its next number. */
  lemma TrackAdded(pids: map<Domain, int>, tracks: Tracks, events: seq<TraceEvent>, d: Domain, key: string,
                   tracks': Tracks, events': seq<TraceEvent>)
    requires Named(pids, tracks, events) && d in tracks && key !in tracks[d]
    requires tracks' == tracks[d := tracks[d][key := |tracks[d]| + 1]]
    requires d in pids && events' == events + [ThreadName(pids[d], |tracks[d]| + 1, key)]
    ensures Named(pids, tracks', events')
    ensures Extends(tracks, tracks') && (d, key) !in Pairs(tracks)
    ensures Pairs(tracks') == Pairs(tracks) + {(d, key)} && |Pairs(tracks')| == |Pairs(tracks)| + 1
    ensures Tid(tracks', d, key) == |tracks[d]| + 1
  {
    hide Named, Pairs;
    NamedNext(pids, tracks, events, d, key);
    PairsNext(tracks, d, key, |tracks[d]| + 1);
  }

  lemma PairsNext(tracks: Tracks, d: Domain, key: string, tid: int)
    requires d in tracks && key !in tracks[d]
    ensures (d, key) !in Pairs(tracks)
    ensures Pairs(tracks[d := tracks[d][key := tid]]) == Pairs(tracks) + {(d, key)}
  {
  }

  lemma NamedNext(pids: map<Domain, int>, tracks: Tracks, events: seq<TraceEvent>, d: Domain, key: string)
    requires Named(pids, tracks, events) && d in tracks && key !in tracks[d]
    ensures d in pids
    ensures var tid := |tracks[d]| + 1;
            Named(pids, tracks[d := tracks[d][key := tid]], events + [ThreadName(pids[d], tid, key)])
  {
    hide Numbered;
    var tid := |tracks[d]| + 1;
    var tracks' := tracks[d := tracks[d][key := tid]];
    NumberedNext(tracks[d], key);
    forall d', k | d' in tracks' && k in tracks'[d']
      ensures ThreadName(pids[d'], tracks'[d'][k], k) in events + [ThreadName(pids[d], tid, key)]
    {
      if d' != d || k != key {
        assert ThreadName(pids[d'], tracks[d'][k], k) in events;
      }
    }
  }

  lemma NumberedNext(t: map<string, int>, key: string)
    requires Numbered(t) && key !in t
    ensures Numbered(t[key := |t| + 1])
  {
    assert t[key := |t| + 1].Keys == t.Keys + {key};
  }

  lemma OnlyProcesses(order: seq<Domain>, pids: map<Domain, int>, tracks: Tracks)
    requires PidsOf(order, pids)
    ensures OnlyNamed(pids, tracks, ProcessNames(order))
  {
    var events := ProcessNames(order);
    forall p, d ensures ProcessName(p, d) in events <==> d in pids && pids[d] == p {
      if d in pids && pids[d] == p {
        var i :| 0 <= i < |order| && order[i] == d;
        assert events[i] == ProcessName(p, d);
      }
    }
  }

  lemma OnlyNamedNext(pids: map<Domain, int>, tracks: Tracks, events: seq<TraceEvent>, d: Domain, key: string, tid: int)
    requires OnlyNamed(pids, tracks, events) && d in pids && d in tracks && key !in tracks[d]
    ensures OnlyNamed(pids, tracks[d := tracks[d][key := tid]], events + [ThreadName(pids[d], tid, key)])
  {
    var tracks' := tracks[d := tracks[d][key := tid]];
    forall p, q, k | ThreadName(p, q, k) in events + [ThreadName(pids[d], tid, key)]
      ensures exists c :: HasTrack(pids, tracks', p, q, k, c)
    {
      if ThreadName(p, q, k) in events {
        var c :| HasTrack(pids, tracks, p, q, k, c);
        assert HasTrack(pids, tracks', p, q, k, c);
      } else {
        assert HasTrack(pids, tracks', p, q, k, d);
      }
    }
  }

  lemma OnlyNamedStays(pids: map<Domain, int>, tracks: Tracks, events: seq<TraceEvent>, e: TraceEvent)
    requires OnlyNamed(pids, tracks, events) && !e.ProcessName? && !e.ThreadName?
    ensures OnlyNamed(pids, tracks, events + [e])
  {
    hide HasTrack;
  }

  lemma NamedDomains(pids: map<Domain, int>, tracks: Tracks, events: seq<TraceEvent>, d: Domain)
    requires Named(pids, tracks, events)
    ensures d in tracks <==> d in pids
    ensures Extends(tracks, tracks)
    ensures d in tracks ==> forall key :: (d, key) in Pairs(tracks) <==> key in tracks[d]
  {
  }

  lemma TrackKept(tracks: Tracks, d: Domain, key: string)
    requires d in tracks && key in tracks[d]
    ensures Pairs(tracks) == Pairs(tracks) + {(d, key)} && Extends(tracks, tracks)
    ensures Tid(tracks, d, key) == tracks[d][key]
  {
  }

  // ---------- Emitting events ----------

  class Exporter {
    const report: Report
    const pids: map<Domain, int>
    var events: seq<TraceEvent>
    var tracks: Tracks
    var totalTracks: nat

    ghost predicate Valid()
      reads this
    {
      && Named(pids, tracks, events) && OnlyNamed(pids, tracks, events)
      && totalTracks == |Pairs(tracks)| <= MAX_TRACE_TRACKS
    }

    constructor (report: Report, order: seq<Domain>, pids: map<Domain, int>)
      requires PidsOf(order, pids)
      ensures this.report == report && this.pids == pids
      ensures events == ProcessNames(order) && Valid() && Pairs(tracks) == {}
    {
      this.report, this.pids := report, pids;
      events := ProcessNames(order);
      tracks := map d | d in pids :: map[];
      totalTracks := 0;
      new;
      assert Pairs(tracks) == {};
      OnlyProcesses(order, pids, tracks);
    }

    /** The track of a context within a domain, named on first use. */
    method Track(d: Domain, context: Option<Context>) returns (r: Result<int, ExportError>)
      requires Valid() && d in pids
      modifies this
      ensures Valid() && Extends(old(tracks), tracks) && old(events) <= events
      ensures PacketEvents(events) == old(PacketEvents(events)) && SpanEvents(events) == old(SpanEvents(events))
      ensures r.Ok? ==> && Nameable(context) && r.value == Tid(tracks, d, TrackKey(context))
                        && Pairs(tracks) == old(Pairs(tracks)) + {(d, TrackKey(context))}
      ensures r.Err? ==> tracks == old(tracks) && if Nameable(context)
                         then
                           && r.error == TrackLimit && (d, TrackKey(context)) !in Pairs(tracks)
                           && |Pairs(tracks)| == MAX_TRACE_TRACKS
                         else r.error == InvalidContext
    {
      hide Named, OnlyNamed, Extends, Pairs, PacketEvents, SpanEvents, Tid, Known, ValidContext, TrackKey;
      NamedDomains(pids, tracks, events, d);
      if context.Some? && (!ValidContext(context.value) || !Known(context)) {
        return Err(InvalidContext);
      }
      var key := TrackKey(context);
      if key in tracks[d] {
        TrackKept(tracks, d, key);
        return Ok(tracks[d][key]);
      }
      if totalTracks >= MAX_TRACE_TRACKS {
        return Err(TrackLimit);
      }
      totalTracks := totalTracks + 1;
      var tid := |tracks[d]| + 1;
      var next := tracks[d := tracks[d][key := tid]];
      var named := events + [ThreadName(pids[d], tid, key)];
      TrackAdded(pids, tracks, events, d, key, next, named);
      EventAppended(events, ThreadName(pids[d], tid, key));
      OnlyNamedNext(pids, tracks, events, d, key, tid);
      tracks := next;
      events := named;
      return Ok(tid);
    }

    /** What has been emitted after i observations and j spans. */
    ghost predicate Emitted(i: nat, j: nat)
      requires i <= |report.observations| && j <= |report.spans|
      reads this
    {
      && PacketEvents(events) == RenderPackets(report, pids, tracks, i)
      && SpanEvents(events) == RenderSpans(report, pids, tracks, j)
      && Pairs(tracks) == UsedTracks(report, i, j)
    }

    lemma PassUntimed(i: nat)
      requires i < |report.observations| && report.observations[i].timestamp.None? && Emitted(i, 0)
      ensures Emitted(i + 1, 0)
    {
      UsedByOne(report, i);
    }

    /** The event of a timed observation, or the reason there is none. */
    method EmitPacket(i: nat, origins: map<Domain, Option<int>>) returns (failure: Option<ExportError>)
      requires i < |report.observations| && Valid() && Emitted(i, 0)
      requires var o := report.observations[i]; DomainOf(o) in pids && Timed(o) && o.timestamp.Some?
      requires OriginsOf(report.observations, origins)
      modifies this
      ensures Valid() && old(events) <= events
      ensures failure.None? ==> Emitted(i + 1, 0) && Nameable(report.observations[i].context)
      ensures failure.Some? ==> Failed(report, failure.value, exists o :: o in report.observations && !Exportable(o))
    {
      hide Named, Pairs, PacketEvents, SpanEvents, Tid, Nameable, TrackKey, Extends, OriginsOf, Timed, Origin, Failed;
      hide UsedTracks, Known, ValidContext, OnlyNamed;
      var o := report.observations[i];
      UsedByOne(report, i);
      TimeOf(o);
      var d := DomainOf(o);
      ghost var was := tracks;
      var tid := Track(d, o.context);
      if tid.Err? {
        TrackRefused(report, i, tracks, o, tid.error);
        return Some(tid.error);
      }
      RenderedPacketsStay(report, pids, was, tracks, i);
      OriginKnown(report.observations, i, origins);
      var value := o.timestamp.value.value.value;
      var address := if o.packet.kind in {Instruction, Function, AddressSync} then Some(o.packet.address) else None;
      var event := PacketEvent(o.packet.kind, PicosecondsToMicroseconds(value - origins[d].value), pids[d], tid.value,
                               o.index, address, o.timestamp.value.rawTag, o.evidence);
      assert event == RenderPacket(report, pids, tracks, o);
      EventAppended(events, event);
      NamedStays(pids, tracks, events, event);
      OnlyNamedStays(pids, tracks, events, event);
      events := events + [event];
      return None;
    }

    /** An event for every timed observation, or the reason there is none. */
    method EmitPackets(origins: map<Domain, Option<int>>) returns (failure: Option<ExportError>)
      requires Valid() && Emitted(0, 0)
      requires forall o :: o in report.observations ==> DomainOf(o) in pids && Timed(o)
      requires OriginsOf(report.observations, origins)
      modifies this
      ensures Valid() && old(events) <= events
      ensures failure.None? ==> && Emitted(|report.observations|, 0)
                                && forall o :: o in report.observations && o.timestamp.Some? ==> Nameable(o.context)
      ensures failure.Some? ==> Failed(report, failure.value, exists o :: o in report.observations && !Exportable(o))
    {
      hide Emitted, Valid, Nameable, OriginsOf, Timed, Failed;
      var os := report.observations;
      for i := 0 to |os|
        invariant Valid() && old(events) <= events && Emitted(i, 0)
        invariant forall j :: 0 <= j < i && os[j].timestamp.Some? ==> Nameable(os[j].context)
      {
        assert os[i] in os;
        if os[i].timestamp.Some? {
          failure := EmitPacket(i, origins);
          if failure.Some? { return; }
        } else {
          PassUntimed(i);
        }
      }
      return None;
    }

    method EmitSpan(j: nat, origins: map<Domain, Option<int>>) returns (failure: Option<ExportError>)
      requires j < |report.spans| && Valid() && Emitted(|report.observations|, j)
      requires OriginsOf(report.observations, origins) && pids.Keys == origins.Keys
      modifies this
      ensures Valid() && old(events) <= events
      ensures failure.None? ==> && Emitted(|report.observations|, j + 1)
                                && SpanExportable(report.observations, report.spans[j])
      ensures failure.Some? ==>
                Failed(report, failure.value, exists s :: s in report.spans && !SpanExportable(report.observations, s))
    {
      hide Named, Pairs, PacketEvents, SpanEvents, Tid, Nameable, TrackKey, Extends, Origin, Failed, ShortEnough;
      hide UsedTracks, Known, ValidContext, OriginsOf, RenderPackets, PicosecondsToMicroseconds;
      hide SpanExportable, OnlyNamed;
      var s := report.spans[j];
      var d := SpanDomain(s);
      SpanChecks(report, s, origins);
      if d !in pids || origins[d].None? || s.unit != Picoseconds || s.start < origins[d].value || s.end < s.start
         || !ShortEnough(s.start) || !ShortEnough(s.end) {
        return Some(InvalidSpan);
      }
      UsedBySpan(report, j);
      ghost var was := tracks;
      var tid := Track(d, Some(s.context));
      if tid.Err? {
        SpanTrackRefused(report, j, tracks, s, tid.error);
        return Some(tid.error);
      }
      UsedByPackets(report, j);
      RenderedPacketsStay(report, pids, was, tracks, |report.observations|);
      RenderedSpansStay(report, pids, was, tracks, j);
      var event := SpanEvent(s.address, PicosecondsToMicroseconds(s.start - origins[d].value),
                             PicosecondsToMicroseconds(s.end - s.start), pids[d], tid.value, s.rawStart, s.rawEnd,
                             s.evidence);
      assert event == RenderSpan(report, pids, tracks, s);
      EventAppended(events, event);
      NamedStays(pids, tracks, events, event);
      OnlyNamedStays(pids, tracks, events, event);
      events := events + [event];
      return None;
    }

    /** An event for every span, or the reason there is none. */
    method EmitSpans(origins: map<Domain, Option<int>>) returns (failure: Option<ExportError>)
      requires Valid() && Emitted(|report.observations|, 0)
      requires OriginsOf(report.observations, origins) && pids.Keys == origins.Keys
      modifies this
      ensures Valid() && old(events) <= events
      ensures failure.None? ==> && Emitted(|report.observations|, |report.spans|)
                                && forall s :: s in report.spans ==> SpanExportable(report.observations, s)
      ensures failure.Some? ==>
                Failed(report, failure.value, exists s :: s in report.spans && !SpanExportable(report.observations, s))
    {
      hide Emitted, Valid, OriginsOf, Failed, SpanExportable;
      for j := 0 to |report.spans|
        invariant Valid() && old(events) <= events && Emitted(|report.observations|, j)
        invariant forall k :: 0 <= k < j ==> SpanExportable(report.observations, report.spans[k])
      {
        failure := EmitSpan(j, origins);
        if failure.Some? { return; }
      }
      return None;
    }
  }

  // ---------- Origins ----------

  /** A time, if there is one, is a physical time. */
  predicate Timed(o: Observation) {
    o.generation != 0 && o.clockEpoch != 0 && (o.timestamp.Some? ==> PhysicalTimestamp(o.timestamp.value).Ok?)
  }

  predicate OriginsOf(os: seq<Observation>, origins: map<Domain, Option<int>>) {
    origins.Keys == Domains(os) && forall d :: d in origins ==> origins[d] == Origin(os, |os|, d)
  }

  /** Why an emission may fail: an invalid item, or more tracks than the limit. */
  ghost predicate Failed(r: Report, error: ExportError, invalid: bool) {
    invalid || (error == TrackLimit && |AllTracks(r)| > MAX_TRACE_TRACKS)
  }

  lemma TimeOf(o: Observation)
    requires Timed(o) && o.timestamp.Some?
    ensures o.timestamp.value.value.Some?
  {
  }

  lemma {:induction false} OriginLeast(os: seq<Observation>, n: nat, i: nat)
    requires i < n <= |os| && os[i].timestamp.Some? && os[i].timestamp.value.value.Some?
    ensures Origin(os, n, DomainOf(os[i])).Some?
    ensures Origin(os, n, DomainOf(os[i])).value <= os[i].timestamp.value.value.value
  {
    if i < n - 1 {
      OriginLeast(os, n - 1, i);
    }
  }

  lemma OriginKnown(os: seq<Observation>, i: nat, origins: map<Domain, Option<int>>)
    requires i < |os| && os[i].timestamp.Some? && os[i].timestamp.value.value.Some? && OriginsOf(os, origins)
    ensures DomainOf(os[i]) in origins && origins[DomainOf(os[i])] == Origin(os, |os|, DomainOf(os[i]))
    ensures origins[DomainOf(os[i])].Some? && origins[DomainOf(os[i])].value <= os[i].timestamp.value.value.value
  {
    OriginLeast(os, |os|, i);
    assert os[i] in os;
  }

  lemma TrackRefused(r: Report, i: nat, tracks: Tracks, o: Observation, error: ExportError)
    requires i < |r.observations| && o == r.observations[i] && o.timestamp.Some? && Pairs(tracks) == UsedTracks(r, i, 0)
    requires if Nameable(o.context)
             then
               && error == TrackLimit && (DomainOf(o), TrackKey(o.context)) !in Pairs(tracks)
               && |Pairs(tracks)| == MAX_TRACE_TRACKS
             else error == InvalidContext
    ensures Failed(r, error, exists o :: o in r.observations && !Exportable(o))
  {
    if Nameable(o.context) {
      UsedByOne(r, i);
      UsedGrows(r, i + 1, 0);
      OneMore(Pairs(tracks), (DomainOf(o), TrackKey(o.context)), AllTracks(r));
    } else {
      assert o in r.observations && !Exportable(o);
    }
  }

  /** The times of a span are in order and short, and its domain has an origin. */
  predicate SpanTimed(s: Span, origins: map<Domain, Option<int>>) {
    var d := SpanDomain(s);
    && d in origins && origins[d].Some? && s.unit == Picoseconds && origins[d].value <= s.start <= s.end
    && ShortEnough(s.start) && ShortEnough(s.end)
  }

  lemma SpanChecks(r: Report, s: Span, origins: map<Domain, Option<int>>)
    requires OriginsOf(r.observations, origins) && s in r.spans
    ensures SpanExportable(r.observations, s) <==> SpanTimed(s, origins) && Nameable(Some(s.context))
    ensures !SpanTimed(s, origins) ==>
              Failed(r, InvalidSpan, exists s :: s in r.spans && !SpanExportable(r.observations, s))
    ensures SpanTimed(s, origins) ==> origins[SpanDomain(s)] == Origin(r.observations, |r.observations|, SpanDomain(s))
  {
    hide Nameable, ShortEnough, Origin;
    OriginMissing(r.observations, SpanDomain(s), origins);
  }

  lemma OriginMissing(os: seq<Observation>, d: Domain, origins: map<Domain, Option<int>>)
    requires OriginsOf(os, origins)
    ensures if d in origins then origins[d] == Origin(os, |os|, d) else Origin(os, |os|, d).None?
  {
    if d !in origins {
      NoOrigin(os, |os|, d);
    }
  }

  lemma {:induction false} NoOrigin(os: seq<Observation>, n: nat, d: Domain)
    requires n <= |os| && d !in Domains(os)
    ensures Origin(os, n, d).None?
  {
    if n > 0 {
      NoOrigin(os, n - 1, d);
      assert os[n - 1] in os;
    }
  }

  lemma SpanTrackRefused(r: Report, j: nat, tracks: Tracks, s: Span, error: ExportError)
    requires j < |r.spans| && s == r.spans[j] && Pairs(tracks) == UsedTracks(r, |r.observations|, j)
    requires if Nameable(Some(s.context))
             then
               && error == TrackLimit && (SpanDomain(s), TrackKey(Some(s.context))) !in Pairs(tracks)
               && |Pairs(tracks)| == MAX_TRACE_TRACKS
             else error == InvalidContext
    ensures Failed(r, error, exists s :: s in r.spans && !SpanExportable(r.observations, s))
  {
    if Nameable(Some(s.context)) {
      UsedBySpan(r, j);
      UsedGrows(r, |r.observations|, j + 1);
      OneMore(Pairs(tracks), (SpanDomain(s), TrackKey(Some(s.context))), AllTracks(r));
    } else {
      assert s in r.spans && !SpanExportable(r.observations, s);
    }
  }

  lemma UsedGrows(r: Report, i: nat, j: nat)
    requires i <= |r.observations| && j <= |r.spans|
    ensures UsedTracks(r, i, j) <= AllTracks(r)
  {
  }

  lemma OneMore<T>(a: set<T>, x: T, b: set<T>)
    requires x !in a && a + {x} <= b
    ensures |b| >= |a| + 1
  {
    Subset(a + {x}, b);
  }

  lemma {:induction false} Subset<T>(a: set<T>, b: set<T>)
    requires a <= b
    ensures |a| <= |b|
  {
    if a != {} {
      var x :| x in a;
      Subset(a - {x}, b - {x});
    }
  }

  lemma NamedStays(pids: map<Domain, int>, tracks: Tracks, events: seq<TraceEvent>, e: TraceEvent)
    requires Named(pids, tracks, events)
    ensures Named(pids, tracks, events + [e])
  {
  }

  /** The domains of the first i observations with their least times. */
  predicate OriginsSoFar(os: seq<Observation>, i: nat, origins: map<Domain, Option<int>>)
    requires i <= |os|
  {
    origins.Keys == Domains(os[..i]) && forall d :: d in origins ==> origins[d] == Origin(os, i, d)
  }

  /** The first pass: every clock domain and its least time. */
  method FindOrigins(os: seq<Observation>) returns (r: Result<map<Domain, Option<int>>, ExportError>)
    ensures r.Ok? ==> OriginsOf(os, r.value) && |Domains(os)| <= MAX_TRACE_TRACKS && forall o :: o in os ==> Timed(o)
    ensures r.Err? ==> || (r.error == ClockDomainLimit && |Domains(os)| > MAX_TRACE_TRACKS)
                       || exists o :: o in os && !Exportable(o)
  {
    hide PhysicalTimestamp, Origin, OriginsSoFar, OriginsOf, Nameable;
    var origins: map<Domain, Option<int>> := map[];
    OriginsStart(os);
    for i := 0 to |os|
      invariant OriginsSoFar(os, i, origins) && |origins| <= MAX_TRACE_TRACKS
      invariant forall j :: 0 <= j < i ==> Timed(os[j])
    {
      var o := os[i];
      var d := DomainOf(o);
      OriginsAdvance(os, i, origins);
      assert o in os;
      if o.generation == 0 || o.clockEpoch == 0 { return Err(InvalidGeneration); }
      var origin := None;
      DomainAdded(os, i, origins, None);
      if d in origins {
        origin := origins[d];
      } else if |origins| >= MAX_TRACE_TRACKS {
        return Err(ClockDomainLimit);
      }
      if o.timestamp.Some? {
        var value := PhysicalTimestamp(o.timestamp.value);
        if value.Err? { return Err(InvalidTimestamp); }
        PhysicalIsValue(o.timestamp.value);
        if origin.None? || value.value < origin.value {
          origin := Some(value.value);
        }
      }
      DomainAdded(os, i, origins, origin);
      origins := origins[d := origin];
    }
    OriginsEnd(os, origins);
    return Ok(origins);
  }

  lemma OriginsStart(os: seq<Observation>)
    ensures OriginsSoFar(os, 0, map[])
  {
    assert os[..0] == [];
  }

  lemma OriginsEnd(os: seq<Observation>, origins: map<Domain, Option<int>>)
    requires OriginsSoFar(os, |os|, origins)
    ensures OriginsOf(os, origins) && |Domains(os)| == |origins|
  {
    assert os[..|os|] == os;
    assert |origins| == |origins.Keys|;
  }

  function Earlier(origin: Option<int>, t: Option<Timestamp>): Option<int> {
    if t.Some? && t.value.value.Some? && (origin.None? || t.value.value.value < origin.value) then t.value.value
    else origin
  }

  /** One more observation adds its domain, with the earlier of the two times. */
  lemma OriginsAdvance(os: seq<Observation>, i: nat, origins: map<Domain, Option<int>>)
    requires i < |os| && OriginsSoFar(os, i, origins)
    ensures var d := DomainOf(os[i]);
            OriginsSoFar(os, i + 1, origins[d := Earlier(if d in origins then origins[d] else None, os[i].timestamp)])
  {
    hide Origin, Domains;
    DomainsOfPrefix(os, i);
    OriginNext(os, i);
    if DomainOf(os[i]) !in origins {
      NoOriginBefore(os, i, DomainOf(os[i]));
    }
  }

  /** A new domain makes one more, and the map of origins grows with it. */
  lemma DomainAdded(os: seq<Observation>, i: nat, origins: map<Domain, Option<int>>, origin: Option<int>)
    requires i < |os| && OriginsSoFar(os, i, origins)
    ensures var d := DomainOf(os[i]);
            && (d !in origins ==> |origins| + 1 <= |Domains(os)|)
            && |origins[d := origin]| == if d in origins then |origins| else |origins| + 1
  {
    var d := DomainOf(os[i]);
    DomainsOfPrefix(os, i);
    if d !in origins {
      OneMore(origins.Keys, d, Domains(os));
    }
    assert origins[d := origin].Keys == origins.Keys + {d};
  }

  lemma DomainsOfPrefix(os: seq<Observation>, i: nat)
    requires i < |os|
    ensures Domains(os[..i + 1]) == Domains(os[..i]) + {DomainOf(os[i])} <= Domains(os)
  {
    assert os[..i + 1] == os[..i] + [os[i]];
  }

  lemma PhysicalIsValue(t: Timestamp)
    ensures PhysicalTimestamp(t).Ok? ==> t.value == Some(PhysicalTimestamp(t).value)
  {
  }

  /** How one more observation moves the origins. */
  lemma OriginNext(os: seq<Observation>, i: nat)
    requires i < |os|
    ensures forall d :: d != DomainOf(os[i]) ==> Origin(os, i + 1, d) == Origin(os, i, d)
    ensures var before := Origin(os, i, DomainOf(os[i]));
            var t := os[i].timestamp;
            Origin(os, i + 1, DomainOf(os[i]))
            == if t.Some? && t.value.value.Some? && (before.None? || t.value.value.value < before.value)
            then t.value.value else before
  {
  }

  lemma {:induction false} NoOriginBefore(os: seq<Observation>, i: nat, d: Domain)
    requires i <= |os| && d !in Domains(os[..i])
    ensures Origin(os, i, d).None?
  {
    if i > 0 {
      DomainsOfPrefix(os, i - 1);
      NoOriginBefore(os, i - 1, d);
    }
  }

  // ---------- Ordering the domains ----------

  /** sort.Slice over the domains, which a map yields in any order. */
  method SortDomains(domains: set<Domain>) returns (order: seq<Domain>)
    ensures Ordered(order) && forall d :: d in order <==> d in domains
  {
    order := [];
    var rest := domains;
    while rest != {}
      invariant Ordered(order) && rest <= domains
      invariant forall d :: d in order <==> d in domains && d !in rest
      decreases |rest|
    {
      var d :| d in rest;
      var k := 0;
      while k < |order| && Before(order[k], d)
        invariant 0 <= k <= |order|
        invariant forall i :: 0 <= i < k ==> Before(order[i], d)
      {
        k := k + 1;
      }
      InsertedInOrder(order, d, k);
      order := order[..k] + [d] + order[k..];
      rest := rest - {d};
    }
  }

  lemma InsertedInOrder(order: seq<Domain>, d: Domain, k: nat)
    requires Ordered(order) && d !in order && k <= |order|
    requires (forall i :: 0 <= i < k ==> Before(order[i], d)) && (k < |order| ==> !Before(order[k], d))
    ensures Ordered(order[..k] + [d] + order[k..])
    ensures forall e :: e in order[..k] + [d] + order[k..] <==> e in order || e == d
  {
    var next := order[..k] + [d] + order[k..];
    InsertedMembers(order, d, k);
    assert k < |order| ==> order[k] in order;
    forall i, j | 0 <= i < j < |next|
      ensures Before(next[i], next[j])
    {
      var a, b := if i < k then i else i - 1, if j < k then j else j - 1;
      assert i != k ==> next[i] == order[a];
      assert j != k ==> next[j] == order[b];
      assert k < |order| && k < b ==> Before(order[k], order[b]);
    }
  }

  lemma InsertedMembers(order: seq<Domain>, d: Domain, k: nat)
    requires k <= |order|
    ensures forall e :: e in order[..k] + [d] + order[k..] <==> e in order || e == d
  {
    var before, after := order[..k], order[k..];
    assert order == before + after;
    forall e
      ensures e in before + [d] + after <==> e in before || e == d || e in after
    {
    }
  }

  /** Process numbers by order, and the clocks of the timed domains. */
  method NumberDomains(os: seq<Observation>, order: seq<Domain>, origins: map<Domain, Option<int>>)
    returns (pids: map<Domain, int>, clocks: seq<GenerationClock>)
    requires Ordered(order) && OriginsOf(os, origins) && forall d :: d in order <==> d in origins
    ensures PidsOf(order, pids) && pids.Keys == origins.Keys && clocks == Clocks(os, order)
  {
    hide Clocks, Origin;
    pids, clocks := map[], [];
    ClocksNext(os, order, 0);
    for i := 0 to |order|
      invariant forall j :: 0 <= j < i ==> order[j] in pids && pids[order[j]] == j + 1
      invariant forall d :: d in pids ==> d in order
      invariant clocks == Clocks(os, order[..i])
    {
      var d := order[i];
      assert d in order && forall j :: 0 <= j < i ==> Before(order[j], order[i]);
      ClocksNext(os, order, i);
      pids := pids[d := i + 1];
      if origins[d].Some? {
        clocks := clocks + [GenerationClock(d, origins[d].value)];
      }
    }
    assert order[..|order|] == order;
  }

  lemma ClocksNext(os: seq<Observation>, order: seq<Domain>, i: nat)
    requires i <= |order|
    ensures i == 0 ==> Clocks(os, order[..i]) == []
    ensures i < |order| ==>
              var origin := Origin(os, |os|, order[i]);
              Clocks(os, order[..i + 1])
              == Clocks(os, order[..i]) + if origin.Some? then [GenerationClock(order[i], origin.value)] else []
  {
    if i < |order| {
      assert order[..i + 1][..i] == order[..i];
    }
  }

  // ---------- The export ----------

  /** ChromeTrace: succeeds exactly when the report is ready and within both limits, and
      then renders it. */
  method ChromeTrace(report: Report) returns (r: Result<Trace, ExportError>, ghost order: seq<Domain>,
                                              ghost pids: map<Domain, int>, ghost tracks: Tracks)
    ensures r.Ok? <==>
            && Ready(report) && |Domains(report.observations)| <= MAX_TRACE_TRACKS
            && |AllTracks(report)| <= MAX_TRACE_TRACKS
    ensures r.Ok? ==> Renders(report, r.value, order, pids, tracks) && ChromeMeaning.Shows(report, r.value)
    ensures report.info.timebase != 3 ==> r == Err(NotPicoseconds)
    ensures r.Err? && Ready(report) ==>
              || (r.error == ClockDomainLimit && |Domains(report.observations)| > MAX_TRACE_TRACKS)
              || (r.error == TrackLimit && |AllTracks(report)| > MAX_TRACE_TRACKS)
  {
    hide Exportable, SpanExportable, Renders, AllTracks, Domains, ChromeMeaning.Shows, Ready;
    ReadyIs(report);
    order, pids, tracks := [], map[], map[];
    if report.info.timebase != 3 || report.info.unit != Picoseconds {
      return Err(NotPicoseconds), order, pids, tracks;
    }
    if |report.observations| > MAX_CAPTURE_PACKETS || |report.spans| > MAX_CAPTURE_PACKETS
       || |report.discontinuities| > 2 * MAX_CAPTURE_PACKETS + 2 * MAX_GENERATIONS {
      return Err(ReportLimits), order, pids, tracks;
    }
    r, order, pids, tracks := Export(report);
    if r.Ok? { ChromeMeaning.TraceShows(report, r.value, order, pids, tracks); }
  }

  lemma ReadyIs(r: Report)
    ensures Ready(r) ==> r.info.timebase == 3 && r.info.unit == Picoseconds && WithinLimits(r)
  {
  }

  /** The export of a report whose header has been checked. */
  method Export(report: Report) returns (r: Result<Trace, ExportError>, ghost order: seq<Domain>,
                                         ghost pids: map<Domain, int>, ghost tracks: Tracks)
    requires report.info.timebase == 3 && report.info.unit == Picoseconds && WithinLimits(report)
    ensures r.Ok? ==> && Ready(report) && |Domains(report.observations)| <= MAX_TRACE_TRACKS
                      && Renders(report, r.value, order, pids, tracks) && |AllTracks(report)| <= MAX_TRACE_TRACKS
    ensures r.Err? ==> || !Ready(report)
                       || (r.error == ClockDomainLimit && |Domains(report.observations)| > MAX_TRACE_TRACKS)
                       || (r.error == TrackLimit && |AllTracks(report)| > MAX_TRACE_TRACKS)
  {
    hide Exportable, SpanExportable, Named, PacketEvents, SpanEvents, RenderPackets, RenderSpans, Clocks, Origin, Pairs;
    hide Timed, UsedTracks, Ordered, PidsOf, Nameable, OnlyNamed;
    order, pids, tracks := [], map[], map[];
    var os := report.observations;
    var origins := FindOrigins(os);
    if origins.Err? {
      return Err(origins.error), order, pids, tracks;
    }
    var sorted := SortDomains(origins.value.Keys);
    var numbers, clocks := NumberDomains(os, sorted, origins.value);
    var exporter := new Exporter(report, sorted, numbers);
    NothingEmitted(report, numbers, exporter.tracks, sorted);
    DomainsCover(os);
    var failure := exporter.EmitPackets(origins.value);
    if failure.Some? {
      return Err(failure.value), order, pids, tracks;
    }
    failure := exporter.EmitSpans(origins.value);
    if failure.Some? {
      return Err(failure.value), order, pids, tracks;
    }
    order, pids, tracks := sorted, numbers, exporter.tracks;
    AllExportable(report);
    return Ok(Trace(exporter.events, clocks, report.discontinuities, report.stats)), order, pids, tracks;
  }

  lemma DomainsCover(os: seq<Observation>)
    ensures forall o :: o in os ==> DomainOf(o) in Domains(os)
  {
  }

  lemma AllExportable(r: Report)
    requires forall o :: o in r.observations ==> Timed(o) && (o.timestamp.Some? ==> Nameable(o.context))
    ensures forall o :: o in r.observations ==> Exportable(o)
  {
  }

  lemma NothingEmitted(r: Report, pids: map<Domain, int>, tracks: Tracks, order: seq<Domain>)
    requires Pairs(tracks) == {}
    ensures PacketEvents(ProcessNames(order)) == [] == SpanEvents(ProcessNames(order))
    ensures RenderPackets(r, pids, tracks, 0) == [] == RenderSpans(r, pids, tracks, 0)
    ensures UsedTracks(r, 0, 0) == Pairs(tracks)
  {
    NoPackets(ProcessNames(order));
  }

  lemma {:induction false} NoPackets(events: seq<TraceEvent>)
    requires forall e :: e in events ==> e.ProcessName?
    ensures PacketEvents(events) == [] == SpanEvents(events)
  {
    if events != [] {
      assert events[|events| - 1] in events;
      NoPackets(events[..|events| - 1]);
    }
  }
}
