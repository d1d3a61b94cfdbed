/** Chrome export of a normalized report (internal/timemachine/chrome.go): exactly when
    it succeeds, and what each emitted event says. */
module ChromeExport {

  import opened Prelude
  import opened TraceDecoder
  import opened TraceCapture
  import opened TraceReference
  import opened ChromeTime

  const MAX_TRACE_TRACKS := 4096

  /** An independent clock: times in different domains are never compared. */
  datatype Domain = Domain(generation: u64, epoch: nat)

  datatype TraceEvent =
    | ProcessName(pid: int, domain: Domain)
    | ThreadName(pid: int, tid: int, key: string)
    | PacketEvent(kind: Kind, timestamp: string, pid: int, tid: int, index: u64, address: Option<u64>, rawTag: int,
                  evidence: Evidence)
    | SpanEvent(function_: u64, timestamp: string, duration: string, pid: int, tid: int, rawStart: int, rawEnd: int,
                evidences: seq<Evidence>)

  datatype GenerationClock = GenerationClock(domain: Domain, origin: int)

  datatype Trace = Trace(events: seq<TraceEvent>, clocks: seq<GenerationClock>, discontinuities: seq<Discontinuity>,
                         stats: Statistics)

  datatype ExportError =
    | NotPicoseconds
    | ReportLimits
    | InvalidGeneration
    | ClockDomainLimit
    | InvalidTimestamp
    | InvalidContext
    | TrackLimit
    | InvalidSpan

  function DomainOf(o: Observation): Domain {
    Domain(o.generation, o.clockEpoch)
  }

  function SpanDomain(s: Span): Domain {
    Domain(s.generation, s.clockEpoch)
  }

  predicate ShortEnough(value: int) {
    |Decimal.FormatInt(value)| <= 21
  }

  function PhysicalTimestamp(t: Timestamp): Result<int, ExportError> {
    if t.unit != Picoseconds || t.value.None? || !ShortEnough(t.value.value) then Err(InvalidTimestamp)
    else Ok(t.value.value)
  }

  /** The track key: "task:address-space", or one shared key for unknown tasks. */
  function TrackKey(c: Option<Context>): string {
    if c.None? then "unknown" else c.value.taskId + ":" + c.value.addressSpaceId
  }

  predicate Nameable(c: Option<Context>) {
    c.Some? ==> ValidContext(c.value) && Known(c)
  }

  // ---------- When an export succeeds ----------

  predicate Exportable(o: Observation) {
    && o.generation != 0 && o.clockEpoch != 0
    && (o.timestamp.Some? ==> PhysicalTimestamp(o.timestamp.value).Ok? && Nameable(o.context))
  }

  /** The least time of a domain among the first n observations. */
  function Origin(os: seq<Observation>, n: nat, d: Domain): Option<int>
    requires n <= |os|
  {
    if n == 0 then None
    else
      var before := Origin(os, n - 1, d);
      var o := os[n - 1];
      if DomainOf(o) == d && o.timestamp.Some? && o.timestamp.value.value.Some?
         && (before.None? || o.timestamp.value.value.value < before.value)
      then o.timestamp.value.value
      else before
  }

  predicate SpanExportable(os: seq<Observation>, s: Span) {
    var origin := Origin(os, |os|, SpanDomain(s));
    && origin.Some? && origin.value <= s.start <= s.end
    && s.unit == Picoseconds && ShortEnough(s.start) && ShortEnough(s.end)
    && Nameable(Some(s.context))
  }

  predicate WithinLimits(r: Report) {
    && |r.observations| <= MAX_CAPTURE_PACKETS && |r.spans| <= MAX_CAPTURE_PACKETS
    && |r.discontinuities| <= 2 * MAX_CAPTURE_PACKETS + 2 * MAX_GENERATIONS
  }

  /** Everything the export validates, apart from its own two limits. */
  predicate Ready(r: Report) {
    && r.info.timebase == 3 && r.info.unit == Picoseconds
    && WithinLimits(r)
    && (forall o :: o in r.observations ==> Exportable(o))
    && (forall s :: s in r.spans ==> SpanExportable(r.observations, s))
  }

  function Domains(os: seq<Observation>): set<Domain> {
    set o | o in os :: DomainOf(o)
  }

  /** The tracks that the first i observations and the first j spans appear on. */
  function UsedTracks(r: Report, i: nat, j: nat): set<(Domain, string)>
    requires i <= |r.observations| && j <= |r.spans|
  {
    (set o | o in r.observations[..i] && o.timestamp.Some? :: (DomainOf(o), TrackKey(o.context)))
    + (set s | s in r.spans[..j] :: (SpanDomain(s), TrackKey(Some(s.context))))
  }

  function AllTracks(r: Report): set<(Domain, string)> {
    UsedTracks(r, |r.observations|, |r.spans|)
  }

  // ---------- What an export contains ----------

  type Tracks = map<Domain, map<string, int>>

  predicate Before(a: Domain, b: Domain) {
    a.generation < b.generation || (a.generation == b.generation && a.epoch < b.epoch)
  }

  predicate Ordered(order: seq<Domain>) {
    forall i, j :: 0 <= i < j < |order| ==> Before(order[i], order[j])
  }

  function ElapsedText(value: int, origin: Option<int>): string {
    if origin.Some? && origin.value <= value then PicosecondsToMicroseconds(value - origin.value) else ""
  }

  function Tid(tracks: Tracks, d: Domain, key: string): int {
    if d in tracks && key in tracks[d] then tracks[d][key] else 0
  }

  function PidOf(pids: map<Domain, int>, d: Domain): int {
    if d in pids then pids[d] else 0
  }

  function RenderPacket(r: Report, pids: map<Domain, int>, tracks: Tracks, o: Observation): TraceEvent
    requires o.timestamp.Some? && o.timestamp.value.value.Some?
  {
    var d, t := DomainOf(o), o.timestamp.value;
    PacketEvent(o.packet.kind, ElapsedText(t.value.value, Origin(r.observations, |r.observations|, d)),
                PidOf(pids, d), Tid(tracks, d, TrackKey(o.context)), o.index,
                if o.packet.kind in {Instruction, Function, AddressSync} then Some(o.packet.address) else None,
                t.rawTag, o.evidence)
  }

  function RenderSpan(r: Report, pids: map<Domain, int>, tracks: Tracks, s: Span): TraceEvent {
    var d := SpanDomain(s);
    SpanEvent(s.address, ElapsedText(s.start, Origin(r.observations, |r.observations|, d)),
              ElapsedText(s.end, Some(s.start)), PidOf(pids, d), Tid(tracks, d, TrackKey(Some(s.context))),
              s.rawStart, s.rawEnd, s.evidence)
  }

  /** The packet events of the first n observations: one for each that has a time. */
  function RenderPackets(r: Report, pids: map<Domain, int>, tracks: Tracks, n: nat): seq<TraceEvent>
    requires n <= |r.observations|
  {
    if n == 0 then []
    else
      var o := r.observations[n - 1];
      RenderPackets(r, pids, tracks, n - 1)
      + if o.timestamp.Some? && o.timestamp.value.value.Some? then [RenderPacket(r, pids, tracks, o)] else []
  }

  function RenderSpans(r: Report, pids: map<Domain, int>, tracks: Tracks, n: nat): seq<TraceEvent>
    requires n <= |r.spans|
  {
    if n == 0 then [] else RenderSpans(r, pids, tracks, n - 1) + [RenderSpan(r, pids, tracks, r.spans[n - 1])]
  }

  function ProcessNames(order: seq<Domain>): seq<TraceEvent> {
    seq(|order|, i requires 0 <= i < |order| => ProcessName(i + 1, order[i]))
  }

  /** The clock of every timed domain, in order. */
  function Clocks(os: seq<Observation>, order: seq<Domain>): seq<GenerationClock> {
    if order == [] then []
    else
      var d := order[|order| - 1];
      var origin := Origin(os, |os|, d);
      Clocks(os, order[..|order| - 1]) + (if origin.Some? then [GenerationClock(d, origin.value)] else [])
  }

  function PacketEvents(events: seq<TraceEvent>): seq<TraceEvent> {
    if events == [] then []
    else
      var last := events[|events| - 1];
      PacketEvents(events[..|events| - 1]) + if last.PacketEvent? then [last] else []
  }

  function SpanEvents(events: seq<TraceEvent>): seq<TraceEvent> {
    if events == [] then []
    else SpanEvents(events[..|events| - 1]) + (if events[|events| - 1].SpanEvent? then [events[|events| - 1]] else [])
  }

  /** Within a domain the tracks are numbered from one, each number used once. */
  predicate Numbered(t: map<string, int>) {
    && (forall k :: k in t ==> 1 <= t[k] <= |t|)
    && (forall k, l :: k in t && l in t && t[k] == t[l] ==> k == l)
  }

  ghost predicate Named(pids: map<Domain, int>, tracks: Tracks, events: seq<TraceEvent>) {
    && tracks.Keys == pids.Keys
    && (forall d :: d in tracks ==> Numbered(tracks[d]))
    && (forall d, k :: d in tracks && k in tracks[d] ==> ThreadName(pids[d], tracks[d][k], k) in events)
  }

  predicate HasTrack(pids: map<Domain, int>, tracks: Tracks, pid: int, tid: int, key: string, d: Domain) {
    d in pids && pids[d] == pid && d in tracks && key in tracks[d] && tracks[d][key] == tid
  }

  /** Nothing else is named: a process for every domain, a thread only for a track. */
  ghost predicate OnlyNamed(pids: map<Domain, int>, tracks: Tracks, events: seq<TraceEvent>) {
    && (forall p, d :: ProcessName(p, d) in events <==> d in pids && pids[d] == p)
    && (forall p, q, k :: ThreadName(p, q, k) in events ==> exists d :: HasTrack(pids, tracks, p, q, k, d))
  }

  function Pairs(tracks: Tracks): set<(Domain, string)> {
    set d, k | d in tracks && k in tracks[d] :: (d, k)
  }

  predicate PidsOf(order: seq<Domain>, pids: map<Domain, int>) {
    && (forall i :: 0 <= i < |order| ==> order[i] in pids && pids[order[i]] == i + 1)
    && (forall d :: d in pids ==> d in order)
  }

  /** The trace shows exactly the timed packets and the spans of the report, each at its
      exact offset from its domain's origin, on its domain's process and its task's track. */
  ghost predicate Renders(r: Report, t: Trace, order: seq<Domain>, pids: map<Domain, int>, tracks: Tracks) {
    && Ordered(order) && PidsOf(order, pids) && (forall d :: d in order <==> d in Domains(r.observations))
    && ProcessNames(order) <= t.events
    && t.clocks == Clocks(r.observations, order)
    && PacketEvents(t.events) == RenderPackets(r, pids, tracks, |r.observations|)
    && SpanEvents(t.events) == RenderSpans(r, pids, tracks, |r.spans|)
    && Named(pids, tracks, t.events) && OnlyNamed(pids, tracks, t.events) && Pairs(tracks) == AllTracks(r)
    && t.discontinuities == r.discontinuities && t.stats == r.stats
  }
}
