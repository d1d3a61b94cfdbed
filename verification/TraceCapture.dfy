/** Capture documents and their validation (internal/timemachine/capture.go).
    Packets are the decoded hex fields; a wrong-sized field fails as a packet. */
module TraceCapture {

  import opened Prelude
  import opened TraceDecoder

  const MAX_CAPTURE_PACKETS := 100000
  const MAX_GENERATIONS := 1024
  const MAX_CONTEXTS := 1024
  const MAX_OPEN_FRAMES := 4096
  const MAX_CONTEXT_DEPTH := 1024

  /** One contiguous observed packet interval. */
  datatype Generation = Generation(id: u64, reason: string, firstIndex: u64, packets: seq<seq<byte>>)

  datatype Capture = Capture(
    multiVersion: string,
    info: seq<byte>,
    initialContext: Option<Context>,
    generations: seq<Generation>)

  datatype CaptureError =
    | BadRelease
    | BadInfo
    | BadInitialContext
    | BadGenerationCount
    | BadGenerationOrder
    | BadGenerationReason
    | TooManyPackets
    | PacketIndexOverflow
    | BadPacket

  predicate KnownReason(reason: string) {
    reason in {"initial", "trace_start", "data_clear", "count_regression",
               "decoder_replacement", "snapshot_loaded", "packet_gap"}
  }

  predicate Decodable(profile: Profile, packets: seq<seq<byte>>) {
    forall i :: 0 <= i < |packets| ==> DecodePacket(profile, packets[i]).Ok?
  }

  function Decoded(profile: Profile, packets: seq<seq<byte>>): (ps: seq<Packet>)
    requires Decodable(profile, packets)
    ensures |ps| == |packets|
    ensures forall i :: 0 <= i < |ps| ==> ps[i] == DecodePacket(profile, packets[i]).value && WellFormed(ps[i])
  {
    seq(|packets|, i requires 0 <= i < |packets| => DecodePacket(profile, packets[i]).value)
  }

  /** The packets of the first n generations. */
  function PacketTotal(gs: seq<Generation>, n: nat): nat
    requires n <= |gs|
  {
    if n == 0 then 0 else PacketTotal(gs, n - 1) + |gs[n - 1].packets|
  }

  predicate ValidGeneration(profile: Profile, g: Generation) {
    && g.id > 0
    && KnownReason(g.reason)
    && Decodable(profile, g.packets)
    && g.firstIndex + |g.packets| <= 0x1_0000_0000_0000_0000
  }

  /** Identities increase strictly, every packet decodes and all indices fit. */
  predicate ValidGenerations(profile: Profile, gs: seq<Generation>) {
    && (forall k :: 0 <= k < |gs| ==> ValidGeneration(profile, gs[k]))
    && (forall j, k :: 0 <= j < k < |gs| ==> gs[j].id < gs[k].id)
    && PacketTotal(gs, |gs|) <= MAX_CAPTURE_PACKETS
  }

  predicate ValidCapture(c: Capture, profile: Profile, info: Info) {
    && ProfileForVersion(c.multiVersion) == Ok(profile)
    && DecodeInfo(profile, c.info) == Ok(info)
    && (c.initialContext.Some? ==> ValidContext(c.initialContext.value))
    && 0 < |c.generations| <= MAX_GENERATIONS
    && ValidGenerations(profile, c.generations)
  }

  /** validateCapture: accepts exactly the valid captures. */
  method ValidateCapture(c: Capture) returns (r: Result<(Profile, Info), CaptureError>)
    ensures r.Ok? ==> ValidCapture(c, r.value.0, r.value.1)
    ensures r.Err? ==> forall p, i :: !ValidCapture(c, p, i)
  {
    var profile := ProfileForVersion(c.multiVersion);
    if profile.Err? { return Err(BadRelease); }
    var info := DecodeInfo(profile.value, c.info);
    if info.Err? { return Err(BadInfo); }
    if c.initialContext.Some? && !ValidContext(c.initialContext.value) { return Err(BadInitialContext); }
    if |c.generations| == 0 || |c.generations| > MAX_GENERATIONS { return Err(BadGenerationCount); }
    var failure := ValidateGenerations(profile.value, c.generations);
    return if failure.Some? then Err(failure.value) else Ok((profile.value, info.value));
  }

  method ValidateGenerations(profile: Profile, gs: seq<Generation>) returns (failure: Option<CaptureError>)
    ensures failure.None? <==> ValidGenerations(profile, gs)
  {
    var previousId := 0;
    var total := 0;
    for k := 0 to |gs|
      invariant previousId == if k == 0 then 0 else gs[k - 1].id
      invariant total == PacketTotal(gs, k) <= MAX_CAPTURE_PACKETS
      invariant forall j :: 0 <= j < k ==> ValidGeneration(profile, gs[j])
      invariant forall i, j :: 0 <= i < j < k ==> gs[i].id < gs[j].id
    {
      var g := gs[k];
      if g.id == 0 || g.id <= previousId { return Some(BadGenerationOrder); }
      previousId := g.id;
      if !KnownReason(g.reason) { return Some(BadGenerationReason); }
      if |g.packets| > MAX_CAPTURE_PACKETS - total {
        PacketTotalGrows(gs, k + 1, |gs|);
        return Some(TooManyPackets);
      }
      total := total + |g.packets|;
      if |g.packets| > 0 && |g.packets| - 1 > 0xFFFF_FFFF_FFFF_FFFF - g.firstIndex {
        return Some(PacketIndexOverflow);
      }
      var decodable := CheckPackets(profile, g.packets);
      if !decodable { return Some(BadPacket); }
    }
    return None;
  }

  method CheckPackets(profile: Profile, packets: seq<seq<byte>>) returns (ok: bool)
    ensures ok <==> Decodable(profile, packets)
  {
    for i := 0 to |packets|
      invariant Decodable(profile, packets[..i])
    {
      var packet := DecodePacket(profile, packets[i]);
      if packet.Err? { return false; }
    }
    assert packets[..|packets|] == packets;
    return true;
  }

  lemma PacketTotalGrows(gs: seq<Generation>, m: nat, n: nat)
    requires m <= n <= |gs|
    ensures PacketTotal(gs, m) <= PacketTotal(gs, n)
  {
  }
}
