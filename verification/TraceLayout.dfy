/** The 32-byte layout that the packet decoder reads: type, reconstructed flag, six bytes of
    padding, then address and payload as little-endian 64-bit words. */
module TraceLayout {

  import opened Prelude
  import opened TraceDecoder

  function Bytes4(v: u32): (b: seq<byte>)
    ensures |b| == 4
  {
    [v % 0x100, v / 0x100 % 0x100, v / 0x1_0000 % 0x100, v / 0x100_0000]
  }

  function Bytes8(v: u64): (b: seq<byte>)
    ensures |b| == 8
  {
    Bytes4(v % 0x1_0000_0000) + Bytes4(v / 0x1_0000_0000)
  }

  function RawPacket(type_: byte, reconstructed: bool, padding: seq<byte>, address: u64, first: u64,
                     second: u64): (p: seq<byte>)
    requires |padding| == 6
    ensures |p| == PACKET_SIZE && p[0] == type_ && p[1] == if reconstructed then 1 else 0
  {
    [type_, if reconstructed then 1 else 0] + padding + Bytes8(address) + Bytes8(first) + Bytes8(second)
  }

  lemma BytesSum(v: u32)
    ensures var b := Bytes4(v);
            v == b[0] as int + 0x100 * b[1] as int + 0x1_0000 * b[2] as int + 0x100_0000 * b[3] as int
  {
    var w := v / 0x100;
    assert v == v % 0x100 + 0x100 * w;
    var x := w / 0x100;
    assert w == w % 0x100 + 0x100 * x && x == v / 0x1_0000;
    assert x == x % 0x100 + 0x100 * (x / 0x100) && x / 0x100 == v / 0x100_0000;
  }

  lemma WordAt(a: seq<byte>, v: u32, b: seq<byte>)
    ensures Word(a + Bytes4(v) + b, |a|) == v
  {
    BytesSum(v);
    var all := a + Bytes4(v) + b;
    assert forall i :: 0 <= i < 4 ==> all[|a| + i] == Bytes4(v)[i];
  }

  lemma WideAt(a: seq<byte>, v: u64, b: seq<byte>)
    ensures Wide(a + Bytes8(v) + b, |a|) == v
    ensures Word(a + Bytes8(v) + b, |a|) == v % 0x1_0000_0000
  {
    hide Bytes4, Word;
    var low, high := v % 0x1_0000_0000, v / 0x1_0000_0000;
    var all := a + Bytes8(v) + b;
    assert all == a + Bytes4(low) + (Bytes4(high) + b);
    WordAt(a, low, Bytes4(high) + b);
    assert all == (a + Bytes4(low)) + Bytes4(high) + b;
    WordAt(a + Bytes4(low), high, b);
    assert v == low + 0x1_0000_0000 * high;
  }

  /** Where address and payload are read from. */
  lemma FieldsRead(type_: byte, reconstructed: bool, padding: seq<byte>, address: u64, first: u64, second: u64)
    requires |padding| == 6
    ensures var p := RawPacket(type_, reconstructed, padding, address, first, second);
            && Wide(p, 8) == address && Wide(p, 16) == first && Wide(p, 24) == second
            && Word(p, 16) == first % 0x1_0000_0000
  {
    hide Bytes8, Wide, Word;
    var head := [type_, if reconstructed then 1 else 0] + padding;
    var p := RawPacket(type_, reconstructed, padding, address, first, second);
    assert p == head + Bytes8(address) + (Bytes8(first) + Bytes8(second));
    WideAt(head, address, Bytes8(first) + Bytes8(second));
    assert p == (head + Bytes8(address)) + Bytes8(first) + Bytes8(second);
    WideAt(head + Bytes8(address), first, Bytes8(second));
    assert p == (head + Bytes8(address) + Bytes8(first)) + Bytes8(second) + [];
    WideAt(head + Bytes8(address) + Bytes8(first), second, []);
  }

  /** The packet that a raw packet stands for, by its type. */
  function Meant(profile: Profile, type_: byte, address: u64, first: u64, second: u64): Packet {
    var blank := Packet(Unknown, address, None, None, None, None);
    var context := Some(Context(Decimal.Format(first), Decimal.Format(second)));
    var code := first % 0x1_0000_0000;
    match type_
    case 0 => blank.(kind := Instruction, tag := Some(Tag(profile, first)))
    case 1 => blank.(kind := Data)
    case 2 => blank.(kind := Event, event := Some(DecodeEvent(profile, code)))
    case 3 => blank.(kind := RawData)
    case 4 => blank.(kind := RawDataStart)
    case 5 => blank.(kind := Pid, context := context)
    case 6 => blank.(kind := ExtendedOpcode)
    case 8 => blank.(kind := Register)
    case 9 => blank.(kind := RawTrace, tag := Some(Tag(profile, first)))
    case 10 =>
      var function_ := if code == 0 then Entry else if code == 1 then Exit else UnknownFunction;
      blank.(kind := Function, tag := Some(Tag(profile, second)), function_ := Some(function_))
    case 11 => blank.(kind := AddressSync, tag := Some(Tag(profile, first)))
    case 12 =>
      if profile.HasNewPackets() then blank.(kind := WallClockSync, tag := Some(Tag(profile, first))) else blank
    case 13 => if profile.HasNewPackets() then blank.(kind := PreviousPid, context := context) else blank
    case _ => blank
  }

  /** An extended opcode or raw trace that claims to be longer than its payload. */
  predicate TooLong(type_: byte, first: u64, second: u64) {
    (type_ == 6 && first % 0x1_0000_0000 > 12) || (type_ == 9 && second % 0x40 > 7)
  }

  /** Decoding what is laid out so gives that packet, and fails exactly for the claims above. */
  lemma PacketDecodes(profile: Profile, type_: byte, reconstructed: bool, padding: seq<byte>, address: u64, first: u64,
                      second: u64)
    requires |padding| == 6
    ensures var r := DecodePacket(profile, RawPacket(type_, reconstructed, padding, address, first, second));
            if TooLong(type_, first, second) then r.Err? else r == Ok(Meant(profile, type_, address, first, second))
  {
    hide RawPacket, Wide, Word, DecodeEvent, Decimal.Format, Tag, WellFormed;
    FieldsRead(type_, reconstructed, padding, address, first, second);
    SizeByte(type_, reconstructed, padding, address, first, second);
  }

  /** The low byte of the second payload word. */
  lemma SizeByte(type_: byte, reconstructed: bool, padding: seq<byte>, address: u64, first: u64, second: u64)
    requires |padding| == 6
    ensures RawPacket(type_, reconstructed, padding, address, first, second)[24] % 0x40 == second % 0x40
  {
    var head := [type_, if reconstructed then 1 else 0] + padding + Bytes8(address) + Bytes8(first);
    var p := RawPacket(type_, reconstructed, padding, address, first, second);
    assert p == head + Bytes8(second) && p[24] == Bytes8(second)[0] == second % 0x1_0000_0000 % 0x100;
    LowBits(second);
  }

  lemma LowBits(v: nat)
    ensures v % 0x1_0000_0000 % 0x100 % 0x40 == v % 0x40
  {
    var q, r := v / 0x1_0000_0000, v % 0x1_0000_0000;
    assert v == 0x40 * (0x400_0000 * q + 4 * (r / 0x100)) + r % 0x100;
  }

  /** The type byte that stands for a kind. */
  function TypeByte(kind: Kind): int {
    match kind
    case Unknown => 7   // a type no release uses
    case Instruction => 0
    case Data => 1
    case Event => 2
    case RawData => 3
    case RawDataStart => 4
    case Pid => 5
    case ExtendedOpcode => 6
    case Register => 8
    case RawTrace => 9
    case Function => 10
    case AddressSync => 11
    case WallClockSync => 12
    case PreviousPid => 13
  }

  /** The kind tells the type byte back, and the address is the second word; an unknown packet has
      a type that the release does not use. */
  lemma KindTellsType(profile: Profile, data: seq<byte>)
    requires DecodePacket(profile, data).Ok?
    ensures var p := DecodePacket(profile, data).value;
            && p.address == Wide(data, 8)
            && (p.kind != Unknown ==> data[0] == TypeByte(p.kind))
            && (p.kind == Unknown ==> data[0] == 7 || data[0] > 13 || (data[0] > 11 && !profile.HasNewPackets()))
  {
    hide Wide, Word, DecodeEvent, Tag, WellFormed, PayloadContext;
  }
}
