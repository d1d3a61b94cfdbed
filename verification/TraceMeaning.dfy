/** What the decoded numbers mean: tags, events, reserved task numbers, and the clock of every packet
    in a report. */
module TraceMeaning {

  import opened Prelude
  import Decimal
  import opened TraceDecoder
  import opened TraceCapture
  import opened TraceReference
  import opened TraceSoundness

  // ---------- Tags and events ----------

  const TWO63 := 0x8000_0000_0000_0000
  const TWO64 := 0x1_0000_0000_0000_0000

  /** A tag is the 64-bit word itself, signed on the release that has signed tags. */
  lemma TagExactly(profile: Profile, value: u64)
    ensures var t := Tag(profile, value);
            && (t == value || t == value - TWO64)
            && if profile == Multi7 then -TWO63 <= t < TWO63 else 0 <= t < TWO64
  {
  }

  /** The codes a release documents. */
  predicate Documented(profile: Profile, code: u32) {
    || code <= 4 || code == 28 || 30 <= code <= 32 || code == 50 || code == 51 || 63 <= code <= 65
    || (profile == Multi8 && 66 <= code <= 74)
  }

  /** An event is known exactly if its release documents the code, and every event breaks function
      intervals but those named trigger and marker. */
  lemma EventsExactly(profile: Profile, code: u32)
    ensures var e := DecodeEvent(profile, code);
            && (e.known <==> Documented(profile, code))
            && (!e.discontinuity <==> e.name == "trigger" || e.name == "marker")
            && (!e.known ==> e.name == "unknown_event" && e.discontinuity)
  {
    var name := DecodeEvent(profile, code).name;
    assert "trigger"[1] == 'r' && "marker"[1] == 'a' && |"trigger"| == 7 && |"marker"| == 6;
    if code != 0 && code != 72 {
      assert |name| != 6 && (|name| == 7 ==> name[1] == 'a');
    }
  }

  // ---------- Reserved numbers ----------

  /** Contexts are known unless they carry one of the reserved numbers: -1 and -3 as 32-bit or 64-bit
      tasks, -1 as a 32-bit or 64-bit address space. */
  predicate Reserved(task: u64, space: u64) {
    || task == 0xFFFF_FFFF || task == 0xFFFF_FFFD || task == TWO64 - 1 || task == TWO64 - 3
    || space == 0xFFFF_FFFF || space == TWO64 - 1
  }

  lemma FrontValue(s: string, n: nat)
    requires Decimal.AllDigits(s) && 0 < n <= |s|
    ensures Decimal.AllDigits(s[..n]) && Decimal.AllDigits(s[..n - 1])
    ensures Decimal.Value(s[..n]) == 10 * Decimal.Value(s[..n - 1]) + Decimal.DigitValue(s[n - 1])
  {
    assert s[..n][..n - 1] == s[..n - 1];
  }

  /** Five digits spelled out. */
  lemma FiveDigits(s: string)
    requires |s| == 5 && Decimal.AllDigits(s)
    ensures Decimal.Value(s) == 10_000 * Decimal.DigitValue(s[0]) + 1_000 * Decimal.DigitValue(s[1])
                                + 100 * Decimal.DigitValue(s[2]) + 10 * Decimal.DigitValue(s[3])
                                + Decimal.DigitValue(s[4])
  {
    assert s[..0] == "" && s[..5] == s && Decimal.Value("") == 0;
    hide Decimal.Value, Decimal.DigitValue;
    FrontValue(s, 1);
    FrontValue(s, 2);
    FrontValue(s, 3);
    FrontValue(s, 4);
    FrontValue(s, 5);
  }

  lemma TenDigits(a: string, b: string)
    requires |a| == 5 && |b| == 5 && Decimal.AllDigits(a) && Decimal.AllDigits(b)
    ensures Decimal.AllDigits(a + b) && Decimal.Value(a + b) == 100_000 * Decimal.Value(a) + Decimal.Value(b)
  {
    assert Decimal.Pow10(5) == 100_000;
    Decimal.ValueAppend(a, b);
  }

  lemma TwentyDigits(a: string, b: string)
    requires |a| == 10 && |b| == 10 && Decimal.AllDigits(a) && Decimal.AllDigits(b)
    ensures Decimal.AllDigits(a + b) && Decimal.Value(a + b) == 10_000_000_000 * Decimal.Value(a) + Decimal.Value(b)
  {
    assert Decimal.Pow10(5) == 100_000;
    Decimal.Pow10Sum(5, 5);
    Decimal.ValueAppend(a, b);
  }

  lemma Values32()
    ensures Decimal.AllDigits("4294967295") && Decimal.Value("4294967295") == 0xFFFF_FFFF
    ensures Decimal.AllDigits("4294967293") && Decimal.Value("4294967293") == 0xFFFF_FFFD
  {
    hide Decimal.Value;
    FiveDigits("42949");
    FiveDigits("67295");
    FiveDigits("67293");
    TenDigits("42949", "67295");
    TenDigits("42949", "67293");
    assert "42949" + "67295" == "4294967295" && "42949" + "67293" == "4294967293";
  }

  lemma Values64()
    ensures Decimal.AllDigits("18446744073709551615") && Decimal.Value("18446744073709551615") == TWO64 - 1
    ensures Decimal.AllDigits("18446744073709551613") && Decimal.Value("18446744073709551613") == TWO64 - 3
  {
    hide Decimal.Value;
    FiveDigits("18446");
    FiveDigits("74407");
    FiveDigits("37095");
    FiveDigits("51615");
    FiveDigits("51613");
    TenDigits("18446", "74407");
    TenDigits("37095", "51615");
    TenDigits("37095", "51613");
    assert "18446" + "74407" == "1844674407" && "37095" + "51615" == "3709551615" && "37095" + "51613" == "3709551613";
    TwentyDigits("1844674407", "3709551615");
    TwentyDigits("1844674407", "3709551613");
    assert "1844674407" + "3709551615" == "18446744073709551615"
           && "1844674407" + "3709551613" == "18446744073709551613";
  }

  lemma PrintedIs(n: u64, s: string)
    requires Decimal.Canonical(s)
    ensures Decimal.Format(n) == s <==> n == Decimal.Value(s)
  {
    hide Decimal.Value, Decimal.Format;
    Decimal.FormatRoundTrip(n);
    Decimal.CanonicalIsPrinted(s);
  }

  /** A decoded context is unknown exactly if one of its two numbers is reserved. */
  lemma KnownExactly(task: u64, space: u64)
    ensures Known(Some(Context(Decimal.Format(task), Decimal.Format(space)))) <==> !Reserved(task, space)
  {
    hide Decimal.Value, Decimal.Format;
    Values32();
    Values64();
    PrintedIs(task, "4294967295");
    PrintedIs(task, "4294967293");
    PrintedIs(task, "18446744073709551615");
    PrintedIs(task, "18446744073709551613");
    PrintedIs(space, "4294967295");
    PrintedIs(space, "18446744073709551615");
  }

  // ---------- The clock of every packet ----------

  /** The time a tag tells: cycle tags carry eight fractional bits, which are cut off. */
  predicate TellsValue(info: Info, tag: int, value: Option<int>) {
    if info.unit == UnknownUnit then value.None?
    else value.Some? && if info.unit == Cycles then 256 * value.value <= tag < 256 * (value.value + 1)
         else value.value == tag
  }

  /** Packet i is tagged, and earlier than the nearest tagged packet before it. */
  ghost predicate StepsBack(ps: seq<Packet>, i: nat)
    requires i < |ps|
  {
    exists j :: 0 <= j < i && ps[j].tag.Some? && (forall k :: j < k < i ==> ps[k].tag.None?)
                && ps[i].tag.Some? && ps[i].tag.value < ps[j].tag.value
  }

  lemma {:induction false} LastTagIs(ps: seq<Packet>, n: nat) returns (j: int)
    requires n <= |ps|
    ensures -1 <= j < n && (forall k :: j < k < n ==> ps[k].tag.None?)
    ensures if j < 0 then LastTag(ps, n).None? else ps[j].tag.Some? && LastTag(ps, n) == ps[j].tag
  {
    if n == 0 {
      j := -1;
    } else if ps[n - 1].tag.Some? {
      j := n - 1;
    } else {
      j := LastTagIs(ps, n - 1);
    }
  }

  lemma RegressesExactly(ps: seq<Packet>, i: nat)
    requires i < |ps|
    ensures Regresses(ps, i) <==> StepsBack(ps, i)
  {
    hide LastTag;
    var j := LastTagIs(ps, i);
    if StepsBack(ps, i) {
      var k :| 0 <= k < i && ps[k].tag.Some? && (forall l :: k < l < i ==> ps[l].tag.None?)
               && ps[i].tag.Some? && ps[i].tag.value < ps[k].tag.value;
      assert k == j;
    }
  }

  /** What o says of the clock at packet i: the raw tag, its exact time in the unit of the trace, and the
      epoch, which rises exactly where a tag steps back behind the one before it. */
  ghost predicate Clocks(ps: seq<Packet>, info: Info, i: nat, epochBefore: int, o: Observation)
    requires i < |ps|
  {
    && o.packet == ps[i] && (o.timestamp.Some? <==> ps[i].tag.Some?)
    && (ps[i].tag.Some? ==>
          var t := o.timestamp.value;
          t.rawTag == ps[i].tag.value && t.unit == info.unit && TellsValue(info, ps[i].tag.value, t.value))
    && o.clockEpoch == if i == 0 then 1 else epochBefore + if StepsBack(ps, i) then 1 else 0
  }

  /** The clock of every packet of a report, by what was decoded. */
  lemma ReportClock(c: Capture, profile: Profile, info: Info, k: nat, i: nat)
    requires ValidCapture(c, profile, info) && Normalized(c, profile, info).Ok?
    requires k < |c.generations| && i < |c.generations[k].packets|
    ensures var ps, os := Decoded(profile, c.generations[k].packets), Normalized(c, profile, info).value.observations;
            var j := PacketTotal(c.generations, k) + i;
            j < |os| && Clocks(ps, info, i, if i == 0 then 0 else os[j - 1].clockEpoch, os[j])
  {
    hide Clocks, RunGenerations, ValidGenerations, AllObservations, DecodeInfo, Observations, Decoded;
    GenerationIsValid(c.generations, profile, k);
    var g := c.generations[k];
    ObservationAt(c, profile, info, |c.generations|, k, i);
    if i > 0 { ObservationAt(c, profile, info, |c.generations|, k, i - 1); }
    UnitIs(profile, c.info, info);
    PacketClock(g, Decoded(profile, g.packets), info, DeclaredFor(c, k), i);
  }

  lemma PacketClock(g: Generation, ps: seq<Packet>, info: Info, declared: Option<Context>, i: nat)
    requires i < |ps| && g.firstIndex + |ps| <= 0x1_0000_0000_0000_0000 && (info.unit == Cycles <==> info.timebase == 2)
    ensures var os := Observations(g, ps, info, declared);
            Clocks(ps, info, i, if i == 0 then 0 else os[i - 1].clockEpoch, os[i])
  {
    hide Attribution, StepsBack, Regresses;
    RegressesExactly(ps, i);
    EpochStarts(ps, i);
  }

  lemma UnitIs(profile: Profile, data: seq<byte>, info: Info)
    requires DecodeInfo(profile, data) == Ok(info)
    ensures info.unit == Cycles <==> info.timebase == 2
  {
  }

  lemma EpochStarts(ps: seq<Packet>, i: nat)
    requires i < |ps|
    ensures i == 0 ==> Epoch(ps, i) == 1
    ensures i > 0 ==> Epoch(ps, i) == Epoch(ps, i - 1) + if Regresses(ps, i) then 1 else 0
  {
  }
}
