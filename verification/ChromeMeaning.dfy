/** What an exported trace says about its report, told without the exporter's numbering: which event
    stands for which packet or span, on whose process and track, and at which exact time. */
module ChromeMeaning {

  import opened Prelude
  import opened TraceDecoder
  import opened TraceReference
  import opened ChromeExport
  import ChromeTime
  import Decimal

  // ---------- Clocks ----------

  predicate TimedIn(os: seq<Observation>, i: nat, d: Domain) {
    i < |os| && DomainOf(os[i]) == d && HasTime(os[i])
  }

  predicate HasTime(o: Observation) {
    o.timestamp.Some? && o.timestamp.value.value.Some?
  }

  function TimeOf(o: Observation): int
    requires HasTime(o)
  {
    o.timestamp.value.value.value
  }

  /** v is the least time observed in the domain. */
  ghost predicate IsLeast(os: seq<Observation>, d: Domain, v: int) {
    && (exists i: nat :: TimedIn(os, i, d) && TimeOf(os[i]) == v)
    && (forall i: nat :: TimedIn(os, i, d) ==> v <= TimeOf(os[i]))
  }

  lemma {:induction false} OriginIsLeast(os: seq<Observation>, n: nat, d: Domain)
    requires n <= |os|
    ensures var origin := Origin(os, n, d);
            && (origin.None? ==> forall i: nat :: i < n ==> !TimedIn(os, i, d))
            && (origin.Some? ==> && (exists i: nat :: i < n && TimedIn(os, i, d) && TimeOf(os[i]) == origin.value)
                                 && forall i: nat :: i < n && TimedIn(os, i, d) ==> origin.value <= TimeOf(os[i]))
  {
    if n > 0 {
      OriginIsLeast(os, n - 1, d);
      var origin := Origin(os, n, d);
      if origin.Some? {
        if origin != Origin(os, n - 1, d) {
          assert TimedIn(os, n - 1, d) && TimeOf(os[n - 1]) == origin.value;
        } else {
          var i: nat :| i < n - 1 && TimedIn(os, i, d) && TimeOf(os[i]) == origin.value;
          assert TimedIn(os, i, d);
        }
      }
    }
  }

  /** The origin of a domain is its least time, and there is none without one. */
  lemma OriginExactly(os: seq<Observation>, d: Domain, v: int)
    ensures Origin(os, |os|, d) == Some(v) <==> IsLeast(os, d, v)
  {
    hide Origin;
    OriginIsLeast(os, |os|, d);
    var origin := Origin(os, |os|, d);
    if IsLeast(os, d, v) {
      var i: nat :| TimedIn(os, i, d) && TimeOf(os[i]) == v;
    }
    if origin == Some(v) {
      var i: nat :| i < |os| && TimedIn(os, i, d) && TimeOf(os[i]) == v;
      assert TimedIn(os, i, d) && TimeOf(os[i]) == v;
    }
  }

  /** The text is the exact time from the least one of the domain, in microseconds. */
  ghost predicate TellsTime(os: seq<Observation>, d: Domain, value: int, text: string) {
    exists v :: IsLeast(os, d, v) && Tells(value - v, text)
  }

  /** The text is that many picoseconds, in microseconds. */
  ghost predicate Tells(picoseconds: int, text: string) {
    picoseconds >= 0 && Decimal.IsDecimal(text) && Decimal.RealValue(text) == picoseconds as real / 1_000_000.0
  }

  lemma ElapsedTells(os: seq<Observation>, d: Domain, value: int)
    requires var origin := Origin(os, |os|, d); origin.Some? && origin.value <= value
    ensures TellsTime(os, d, value, ElapsedText(value, Origin(os, |os|, d)))
  {
    hide Origin, Decimal.IsDecimal, Decimal.RealValue, IsLeast, ChromeTime.PicosecondsToMicroseconds;
    var v := Origin(os, |os|, d).value;
    OriginExactly(os, d, v);
    ChromeTime.MicrosecondsExact(value - v);
    assert Tells(value - v, ElapsedText(value, Some(v)));
  }

  // ---------- Events ----------

  /** Process and thread of the event are those of the domain and the task. */
  ghost predicate OnTrack(events: seq<TraceEvent>, pid: int, tid: int, d: Domain, c: Option<Context>) {
    ProcessName(pid, d) in events && ThreadName(pid, tid, TrackKey(c)) in events
  }

  ghost predicate ShowsPacket(r: Report, events: seq<TraceEvent>, o: Observation, e: TraceEvent) {
    && e.PacketEvent? && HasTime(o) && e.kind == o.packet.kind && e.index == o.index
    && e.rawTag == o.timestamp.value.rawTag && e.evidence == o.evidence
    && (e.address.Some? <==> o.packet.kind == Instruction || o.packet.kind == Function || o.packet.kind == AddressSync)
    && (e.address.Some? ==> e.address.value == o.packet.address)
    && OnTrack(events, e.pid, e.tid, DomainOf(o), o.context)
    && TellsTime(r.observations, DomainOf(o), TimeOf(o), e.timestamp)
  }

  ghost predicate ShowsSpan(r: Report, events: seq<TraceEvent>, s: Span, e: TraceEvent) {
    && e.SpanEvent? && e.function_ == s.address && e.rawStart == s.rawStart && e.rawEnd == s.rawEnd
    && e.evidences == s.evidence
    && OnTrack(events, e.pid, e.tid, SpanDomain(s), Some(s.context))
    && TellsTime(r.observations, SpanDomain(s), s.start, e.timestamp) && Tells(s.end - s.start, e.duration)
  }

  /** The observations that have a time, in order. */
  function TimedOnly(os: seq<Observation>): seq<Observation> {
    if os == [] then []
    else TimedOnly(os[..|os| - 1]) + if HasTime(os[|os| - 1]) then [os[|os| - 1]] else []
  }

  /** Names are unambiguous: one process for each domain and no other, and in it one thread for each task
      that something is shown of and no other. */
  ghost predicate NamesTell(r: Report, events: seq<TraceEvent>) {
    && (forall d :: d in Domains(r.observations) <==> exists p :: ProcessName(p, d) in events)
    && (forall p, q, d, d' :: ProcessName(p, d) in events && ProcessName(q, d') in events ==> (p == q <==> d == d'))
    && (forall p, q, k, k' :: ThreadName(p, q, k) in events && ThreadName(p, q, k') in events ==> k == k')
    && (forall p, q, q', k :: ThreadName(p, q, k) in events && ThreadName(p, q', k) in events ==> q == q')
    && (forall p, d, k :: ProcessName(p, d) in events && (d, k) in AllTracks(r) ==> HasThread(events, p, k))
    && (forall p, q, k :: ThreadName(p, q, k) in events ==> ThreadShows(r, events, p, k))
  }

  ghost predicate HasThread(events: seq<TraceEvent>, p: int, k: string) {
    exists q :: ThreadName(p, q, k) in events
  }

  /** The process is that of a domain in which something is shown on the track. */
  ghost predicate ThreadShows(r: Report, events: seq<TraceEvent>, p: int, k: string) {
    exists d :: (d, k) in AllTracks(r) && ProcessName(p, d) in events
  }

  /** The trace shows exactly the timed packets and the spans, in order, each on the process of its
      clock domain and the thread of its task, and the least time of every timed domain. */
  ghost predicate Shows(r: Report, t: Trace) {
    var packets, spans, timed := PacketEvents(t.events), SpanEvents(t.events), TimedOnly(r.observations);
    && NamesTell(r, t.events)
    && |packets| == |timed| && (forall i :: 0 <= i < |timed| ==> ShowsPacket(r, t.events, timed[i], packets[i]))
    && |spans| == |r.spans| && (forall i :: 0 <= i < |r.spans| ==> ShowsSpan(r, t.events, r.spans[i], spans[i]))
    && (forall d, v :: GenerationClock(d, v) in t.clocks
                       <==> d in Domains(r.observations) && IsLeast(r.observations, d, v))
    && t.discontinuities == r.discontinuities && t.stats == r.stats
  }

  // ---------- What Renders means ----------

  lemma TrackIs(r: Report, t: Trace, order: seq<Domain>, pids: map<Domain, int>, tracks: Tracks, d: Domain,
                c: Option<Context>)
    requires Renders(r, t, order, pids, tracks) && (d, TrackKey(c)) in AllTracks(r)
    ensures OnTrack(t.events, PidOf(pids, d), Tid(tracks, d, TrackKey(c)), d, c)
  {
    hide TrackKey, Origin, RenderPackets, RenderSpans, PacketEvents, SpanEvents, Clocks, UsedTracks, Numbered;
    assert (d, TrackKey(c)) in Pairs(tracks);
    assert d in tracks && TrackKey(c) in tracks[d];
    assert d in pids.Keys;
  }

  lemma PacketShown(r: Report, t: Trace, order: seq<Domain>, pids: map<Domain, int>, tracks: Tracks, n: nat)
    requires Ready(r) && Renders(r, t, order, pids, tracks) && n < |r.observations| && HasTime(r.observations[n])
    ensures ShowsPacket(r, t.events, r.observations[n], RenderPacket(r, pids, tracks, r.observations[n]))
  {
    hide Renders, Ready, Origin, TellsTime, OnTrack, TrackKey, ElapsedText, PidOf, Tid, AllTracks;
    var o := r.observations[n];
    PacketTrack(r, n);
    TrackIs(r, t, order, pids, tracks, DomainOf(o), o.context);
    OriginIsLeast(r.observations, |r.observations|, DomainOf(o));
    assert TimedIn(r.observations, n, DomainOf(o));
    ElapsedTells(r.observations, DomainOf(o), TimeOf(o));
  }

  lemma PacketTrack(r: Report, n: nat)
    requires n < |r.observations| && r.observations[n].timestamp.Some?
    ensures (DomainOf(r.observations[n]), TrackKey(r.observations[n].context)) in AllTracks(r)
  {
    hide TrackKey;
    assert r.observations[..|r.observations|] == r.observations;
    assert r.observations[n] in r.observations;
  }

  lemma SpanTrack(r: Report, n: nat)
    requires n < |r.spans|
    ensures (SpanDomain(r.spans[n]), TrackKey(Some(r.spans[n].context))) in AllTracks(r)
  {
    hide TrackKey;
    assert r.spans[..|r.spans|] == r.spans;
    assert r.spans[n] in r.spans;
  }

  lemma SpanShown(r: Report, t: Trace, order: seq<Domain>, pids: map<Domain, int>, tracks: Tracks, n: nat)
    requires Ready(r) && Renders(r, t, order, pids, tracks) && n < |r.spans|
    ensures ShowsSpan(r, t.events, r.spans[n], RenderSpan(r, pids, tracks, r.spans[n]))
  {
    hide Renders, Origin, TellsTime, OnTrack, TrackKey, PidOf, Tid, AllTracks, Exportable, Nameable, ShortEnough;
    hide Decimal.IsDecimal, Decimal.RealValue, ChromeTime.PicosecondsToMicroseconds, IsLeast;
    var s := r.spans[n];
    assert SpanExportable(r.observations, s);
    SpanTrack(r, n);
    TrackIs(r, t, order, pids, tracks, SpanDomain(s), Some(s.context));
    ElapsedTells(r.observations, SpanDomain(s), s.start);
    ChromeTime.MicrosecondsExact(s.end - s.start);
  }

  ghost predicate AllShown(r: Report, events: seq<TraceEvent>, os: seq<Observation>, es: seq<TraceEvent>) {
    |es| == |os| && forall i :: 0 <= i < |os| ==> ShowsPacket(r, events, os[i], es[i])
  }

  lemma {:induction false} PacketsShown(r: Report, t: Trace, order: seq<Domain>, pids: map<Domain, int>, tracks: Tracks,
                                        n: nat)
    requires Ready(r) && Renders(r, t, order, pids, tracks) && n <= |r.observations|
    ensures AllShown(r, t.events, TimedOnly(r.observations[..n]), RenderPackets(r, pids, tracks, n))
  {
    hide Renders, Ready, ShowsPacket, RenderPacket;
    if n > 0 {
      PacketsShown(r, t, order, pids, tracks, n - 1);
      assert r.observations[..n][..n - 1] == r.observations[..n - 1];
      if HasTime(r.observations[n - 1]) { PacketShown(r, t, order, pids, tracks, n - 1); }
    }
  }

  lemma {:induction false} SpansRendered(r: Report, pids: map<Domain, int>, tracks: Tracks, n: nat, i: nat)
    requires i < n <= |r.spans|
    ensures |RenderSpans(r, pids, tracks, n)| == n
    ensures RenderSpans(r, pids, tracks, n)[i] == RenderSpan(r, pids, tracks, r.spans[i])
  {
    hide RenderSpan;
    SpanCount(r, pids, tracks, n - 1);
    if i < n - 1 { SpansRendered(r, pids, tracks, n - 1, i); }
  }

  lemma {:induction false} SpanCount(r: Report, pids: map<Domain, int>, tracks: Tracks, n: nat)
    requires n <= |r.spans|
    ensures |RenderSpans(r, pids, tracks, n)| == n
  {
    if n > 0 { SpanCount(r, pids, tracks, n - 1); }
  }

  lemma {:induction false} ClocksExactly(os: seq<Observation>, order: seq<Domain>, d: Domain, v: int)
    ensures GenerationClock(d, v) in Clocks(os, order) <==> d in order && Origin(os, |os|, d) == Some(v)
  {
    hide Origin;
    if order != [] {
      ClocksExactly(os, order[..|order| - 1], d, v);
      assert order == order[..|order| - 1] + [order[|order| - 1]];
    }
  }

  lemma NamesAreTelling(r: Report, t: Trace, order: seq<Domain>, pids: map<Domain, int>, tracks: Tracks)
    requires Renders(r, t, order, pids, tracks)
    ensures NamesTell(r, t.events)
  {
    hide RenderPackets, RenderSpans, PacketEvents, SpanEvents, Clocks, Domains, AllTracks, Pairs, Ordered, ProcessNames;
    forall d ensures d in Domains(r.observations) <==> exists p :: ProcessName(p, d) in t.events {
      ProcessOf(order, pids, d);
      if d in pids { assert ProcessName(pids[d], d) in t.events; }
    }
    forall d, d' | d in pids && d' in pids && pids[d] == pids[d'] ensures d == d' {
      OneProcess(order, pids, d, d');
    }
    forall p, q, k, k' | ThreadName(p, q, k) in t.events && ThreadName(p, q, k') in t.events ensures k == k' {
      var d :| HasTrack(pids, tracks, p, q, k, d);
      var d' :| HasTrack(pids, tracks, p, q, k', d');
      assert d == d';
    }
    forall p, q, q', k | ThreadName(p, q, k) in t.events && ThreadName(p, q', k) in t.events ensures q == q' {
      OneThread(t.events, order, pids, tracks, p, q, q', k);
    }
    forall p, q, k | ThreadName(p, q, k) in t.events ensures ThreadShows(r, t.events, p, k) {
      ThreadOf(r, t.events, pids, tracks, p, q, k);
    }
    forall p, d, k | ProcessName(p, d) in t.events && (d, k) in AllTracks(r) ensures HasThread(t.events, p, k) {
      ThreadFor(r, t.events, pids, tracks, p, d, k);
    }
  }

  lemma OneThread(events: seq<TraceEvent>, order: seq<Domain>, pids: map<Domain, int>, tracks: Tracks, p: int,
                  q: int, q': int, k: string)
    requires PidsOf(order, pids) && OnlyNamed(pids, tracks, events)
    requires ThreadName(p, q, k) in events && ThreadName(p, q', k) in events
    ensures q == q'
  {
    hide PidsOf;
    var d :| HasTrack(pids, tracks, p, q, k, d);
    var d' :| HasTrack(pids, tracks, p, q', k, d');
    OneProcess(order, pids, d, d');
  }

  lemma ThreadOf(r: Report, events: seq<TraceEvent>, pids: map<Domain, int>, tracks: Tracks, p: int, q: int, k: string)
    requires OnlyNamed(pids, tracks, events) && Pairs(tracks) == AllTracks(r) && ThreadName(p, q, k) in events
    ensures ThreadShows(r, events, p, k)
  {
    hide AllTracks;
    var d :| HasTrack(pids, tracks, p, q, k, d);
    assert (d, k) in Pairs(tracks);
  }

  lemma ThreadFor(r: Report, events: seq<TraceEvent>, pids: map<Domain, int>, tracks: Tracks, p: int, d: Domain,
                  k: string)
    requires Named(pids, tracks, events) && OnlyNamed(pids, tracks, events) && Pairs(tracks) == AllTracks(r)
    requires ProcessName(p, d) in events && (d, k) in AllTracks(r)
    ensures HasThread(events, p, k)
  {
    hide AllTracks, Numbered;
    assert (d, k) in Pairs(tracks);
    assert ThreadName(p, tracks[d][k], k) in events;
  }

  lemma ProcessOf(order: seq<Domain>, pids: map<Domain, int>, d: Domain)
    requires PidsOf(order, pids)
    ensures d in pids <==> d in order
  {
  }

  lemma OneProcess(order: seq<Domain>, pids: map<Domain, int>, d: Domain, d': Domain)
    requires PidsOf(order, pids) && d in pids && d' in pids && pids[d] == pids[d']
    ensures d == d'
  {
    var i :| 0 <= i < |order| && order[i] == d;
    var j :| 0 <= j < |order| && order[j] == d';
  }

  /** Whatever numbers the exporter gives out, its trace says what the report does. */
  lemma TraceShows(r: Report, t: Trace, order: seq<Domain>, pids: map<Domain, int>, tracks: Tracks)
    requires Ready(r) && Renders(r, t, order, pids, tracks)
    ensures Shows(r, t)
  {
    hide Ready, NamesTell, ShowsPacket, ShowsSpan, IsLeast, RenderPackets, RenderSpans, Clocks, Domains, TimedOnly;
    hide RenderSpan, PacketEvents, SpanEvents, Named, OnlyNamed, AllTracks, Pairs, PidsOf, Ordered, ProcessNames;
    NamesAreTelling(r, t, order, pids, tracks);
    PacketsShown(r, t, order, pids, tracks, |r.observations|);
    assert r.observations[..|r.observations|] == r.observations;
    SpanCount(r, pids, tracks, |r.spans|);
    forall i | 0 <= i < |r.spans| ensures ShowsSpan(r, t.events, r.spans[i], SpanEvents(t.events)[i]) {
      SpansRendered(r, pids, tracks, |r.spans|, i);
      SpanShown(r, t, order, pids, tracks, i);
    }
    forall d, v ensures GenerationClock(d, v) in t.clocks <==>
                        d in Domains(r.observations) && IsLeast(r.observations, d, v)
    {
      ClocksExactly(r.observations, order, d, v);
      OriginExactly(r.observations, d, v);
    }
  }
}
