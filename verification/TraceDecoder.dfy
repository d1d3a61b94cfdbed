/** Native packet decoding (internal/timemachine/decoder.go). A packet keeps the
    fields later stages read: kind, address, time tag, event, context, function. */
module TraceDecoder {

  import opened Prelude
  import Decimal

  const PACKET_SIZE := 32

  /** The two inspected releases. */
  datatype Profile = Multi8 | Multi7 {
    predicate SignedTimetags() { Multi7? }
    predicate HasNewPackets() { Multi8? }
    function InfoSize(): nat { if Multi8? then 64 else 60 }
  }

  datatype DecodeError =
    | UnsupportedRelease
    | InfoSizeMismatch
    | PacketSizeMismatch
    | InvalidReconstructedFlag
    | ExtendedOpcodeTooLong
    | RawTraceTooLong

  function ProfileForVersion(version: string): Result<Profile, DecodeError> {
    if version == "8.1.4" then Ok(Multi8)
    else if version == "7.1.6d" then Ok(Multi7)
    else Err(UnsupportedRelease)
  }

  datatype TimeUnit = Instructions | Cycles | Picoseconds | UnknownUnit

  datatype Info = Info(timebase: u32, unit: TimeUnit)

  function DecodeInfo(profile: Profile, data: seq<byte>): (r: Result<Info, DecodeError>)
    ensures r.Ok? <==> |data| == profile.InfoSize()
    ensures r.Ok? ==> r.value.timebase == Word(data, 8) && (r.value.unit == Instructions <==> r.value.timebase == 1)
    ensures r.Ok? ==> (r.value.unit == Picoseconds <==> r.value.timebase == 3)
    ensures r.Ok? ==> (r.value.unit == Cycles <==> r.value.timebase == 2)
  {
    if |data| != profile.InfoSize() then Err(InfoSizeMismatch)
    else
      var timebase := Word(data, 8);
      Ok(Info(timebase, match timebase
                        case 1 => Instructions
                        case 2 => Cycles
                        case 3 => Picoseconds
                        case _ => UnknownUnit))
  }

  /** Task and address-space identity, as the decimal text the report carries. */
  datatype Context = Context(taskId: string, addressSpaceId: string)

  datatype Kind =
    | Unknown | Instruction | Data | Event | RawData | RawDataStart | Pid
    | ExtendedOpcode | Register | RawTrace | Function | AddressSync
    | WallClockSync | PreviousPid

  datatype NativeEvent = NativeEvent(name: string, known: bool, discontinuity: bool)

  datatype FunctionKind = Entry | Exit | UnknownFunction

  datatype Packet = Packet(
    kind: Kind,
    address: u64,
    tag: Option<int>,
    event: Option<NativeEvent>,
    context: Option<Context>,
    function_: Option<FunctionKind>)

  function Word(data: seq<byte>, offset: nat): u32
    requires offset + 4 <= |data|
  {
    data[offset] as int + 0x100 * data[offset + 1] as int
    + 0x1_0000 * data[offset + 2] as int + 0x100_0000 * data[offset + 3] as int
  }

  function Wide(data: seq<byte>, offset: nat): u64
    requires offset + 8 <= |data|
  {
    Word(data, offset) + 0x1_0000_0000 * Word(data, offset + 4)
  }

  /** The tag as printed: two's complement on releases with signed tags. */
  function Tag(profile: Profile, value: u64): int {
    if profile.SignedTimetags() && value >= 0x8000_0000_0000_0000
    then value - 0x1_0000_0000_0000_0000
    else value
  }

  function PayloadContext(data: seq<byte>): (c: Context)
    requires |data| == PACKET_SIZE
    ensures ValidContext(c)
  {
    Decimal.ParseFormat(Wide(data, 16));
    Decimal.ParseFormat(Wide(data, 24));
    Context(Decimal.Format(Wide(data, 16)), Decimal.Format(Wide(data, 24)))
  }

  function DecodePacket(profile: Profile, data: seq<byte>): (r: Result<Packet, DecodeError>)
    ensures r.Ok? ==> WellFormed(r.value)
    ensures r.Ok? <==> && |data| == PACKET_SIZE && data[1] <= 1
                       && (data[0] == 6 ==> Word(data, 16) <= 12) && (data[0] == 9 ==> data[24] % 0x40 <= 7)
  {
    if |data| != PACKET_SIZE then Err(PacketSizeMismatch)
    else if data[1] > 1 then Err(InvalidReconstructedFlag)
    else
      var blank := Packet(Unknown, Wide(data, 8), None, None, None, None);
      var tagged := Some(Tag(profile, Wide(data, 16)));
      match data[0]
      case 0 => Ok(blank.(kind := Instruction, tag := tagged))
      case 1 => Ok(blank.(kind := Data))
      case 2 => Ok(blank.(kind := Event, event := Some(DecodeEvent(profile, Word(data, 16)))))
      case 3 => Ok(blank.(kind := RawData))
      case 4 => Ok(blank.(kind := RawDataStart))
      case 5 => Ok(blank.(kind := Pid, context := Some(PayloadContext(data))))
      case 6 =>
        if Word(data, 16) > 12 then Err(ExtendedOpcodeTooLong)
        else Ok(blank.(kind := ExtendedOpcode))
      case 8 => Ok(blank.(kind := Register))
      case 9 =>
        if data[24] % 0x40 > 7 then Err(RawTraceTooLong)
        else Ok(blank.(kind := RawTrace, tag := tagged))
      case 10 =>
        var code := Word(data, 16);
        Ok(blank.(kind := Function, tag := Some(Tag(profile, Wide(data, 24))),
           function_ := Some(if code == 0 then Entry else if code == 1 then Exit else UnknownFunction)))
      case 11 => Ok(blank.(kind := AddressSync, tag := tagged))
      case 12 => if profile.HasNewPackets() then Ok(blank.(kind := WallClockSync, tag := tagged)) else Ok(blank)
      case 13 =>
        if profile.HasNewPackets() then Ok(blank.(kind := PreviousPid, context := Some(PayloadContext(data))))
        else Ok(blank)
      case _ => Ok(blank)
  }

  /** What every decoded packet satisfies, and all that later stages rely on. */
  predicate WellFormed(p: Packet) {
    && (p.context.Some? <==> p.kind == Pid || p.kind == PreviousPid)
    && (p.function_.Some? <==> p.kind == Function)
    && (p.event.Some? <==> p.kind == Event)
    && (p.tag.Some? <==> p.kind in {Instruction, RawTrace, Function, AddressSync, WallClockSync})
    && (p.tag.Some? ==> -0x8000_0000_0000_0000 <= p.tag.value < 0x1_0000_0000_0000_0000)
    && (p.context.Some? ==> ValidContext(p.context.value))
  }

  function DecodeEvent(profile: Profile, code: u32): NativeEvent {
    var name := EventName(profile, code);
    NativeEvent(name.0, name.1, !(code == 0 || (profile.HasNewPackets() && code == 72)))
  }

  /** The event's name and whether the release documents it. */
  function EventName(profile: Profile, code: u32): (string, bool) {
    var common := map[
                    0 := "trigger", 1 := "trace_disabled", 2 := "fifo_overflow", 3 := "debug_mode", 4 := "reset",
                    28 := "pc_changed", 30 := "context_trace_disabled", 31 := "out_of_sync",
                    32 := "unknown_address_space", 50 := "untraced_functions", 51 := "untraced_callback",
                    63 := "error", 64 := "warning", 65 := "return_from_exception"];
    var added := map[
                   66 := "data_overflow_start", 67 := "data_overflow_end", 68 := "memory_from_target",
                   69 := "protocol_error", 70 := "sleep", 71 := "task_started",
                   72 := "marker", 73 := "overlap_failed", 74 := "undecodable_data"];
    if code in common then (common[code], true)
    else if profile.HasNewPackets() && code in added then (added[code], true)
    else ("unknown_event", false)
  }

  /** capture.go validContext: canonical decimal text of two 64-bit numbers. */
  predicate ValidContext(c: Context) {
    ValidField(c.taskId) && ValidField(c.addressSpaceId)
  }

  predicate ValidField(field: string) {
    && field != "" && |field| <= 20
    && var number := Decimal.ParseUint(field);
    number.Some? && Decimal.Format(number.value) == field
  }

  /** capture.go knownContext: not one of the reserved task or address-space numbers. */
  predicate Known(c: Option<Context>) {
    && c.Some?
    && c.value.taskId !in {"4294967295", "4294967293", "18446744073709551615", "18446744073709551613"}
    && c.value.addressSpaceId !in {"4294967295", "18446744073709551615"}
  }
}
