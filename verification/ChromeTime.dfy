/** Exact microsecond text for picosecond counts (internal/timemachine/chrome.go). */
module ChromeTime {

  import opened Decimal

  function TrimZeros(s: string): (t: string)
    ensures |t| <= |s| && s[..|t|] == t
    ensures forall i :: |t| <= i < |s| ==> s[i] == '0'
    ensures t != "" ==> t[|t| - 1] != '0'
  {
    if s != "" && s[|s| - 1] == '0' then TrimZeros(s[..|s| - 1]) else s
  }

  function PicosecondsToMicroseconds(value: nat): string {
    var quotient, remainder := value / 1_000_000, value % 1_000_000;
    if remainder == 0 then Format(quotient)
    else
      FormatLength(remainder, 6);
      var fraction := Format(remainder);
      Format(quotient) + "." + TrimZeros(Zeros(6 - |fraction|) + fraction)
  }

  lemma SameFraction(t: nat, p: nat, q: nat, v: nat, w: nat)
    requires p > 0 && q > 0 && v == t * q && w == p * q
    ensures w > 0 && t as real / p as real == v as real / w as real
  {
    var tr, pr, qr := t as real, p as real, q as real;
    assert v as real == tr * qr && w as real == pr * qr;
    var x := tr / pr;
    assert x * pr == tr;
    assert x * (pr * qr) == (x * pr) * qr;
    QuotientOf(x, w as real, v as real);
  }

  lemma QuotientOf(x: real, w: real, v: real)
    requires w != 0.0 && x * w == v
    ensures x == v / w
  {
  }

  lemma WholeAndFraction(value: nat, quotient: nat, remainder: nat)
    requires value == quotient * 1_000_000 + remainder
    ensures quotient as real + remainder as real / 1_000_000.0 == value as real / 1_000_000.0
  {
  }

  /** Dropping trailing zeros changes the scale and not the number. */
  lemma TrimKeepsFraction(s: string)
    requires AllDigits(s)
    ensures AllDigits(TrimZeros(s))
    ensures Value(TrimZeros(s)) as real / Pow10(|TrimZeros(s)|) as real == Value(s) as real / Pow10(|s|) as real
  {
    hide Value, Pow10, TrimZeros;
    var t := TrimZeros(s);
    var z := s[|t|..];
    assert s == t + z;
    ValueAppend(t, z);
    ValueOfZeros(z);
    Pow10Sum(|t|, |z|);
    SameFraction(Value(t), Pow10(|t|), Pow10(|z|), Value(s), Pow10(|s|));
  }

  /** The text denotes exactly value / 10^6 microseconds, without trailing zeros. */
  lemma MicrosecondsExact(value: nat)
    ensures var s := PicosecondsToMicroseconds(value);
            && IsDecimal(s)
            && RealValue(s) == value as real / 1_000_000.0
            && (CutDot(s).1 != "" ==> s[|s| - 1] != '0')
  {
    hide Value, Pow10, TrimZeros, Format, CutDot, Zeros;
    var quotient, remainder := value / 1_000_000, value % 1_000_000;
    var whole := Format(quotient);
    FormatRoundTrip(quotient);
    assert '.' !in whole;
    WholeAndFraction(value, quotient, remainder);
    MillionDigits();
    if remainder == 0 {
      CutJoined(whole, "");
    } else {
      FractionDigits(remainder);
      var fraction := Format(remainder);
      var t := TrimZeros(Zeros(6 - |fraction|) + fraction);
      CutJoined(whole, t);
      assert t != "" ==> (whole + "." + t)[|whole + "." + t| - 1] == t[|t| - 1];
    }
  }

  lemma MillionDigits()
    ensures Pow10(6) == 1_000_000 && Pow10(0) == 1 && Value("") == 0
  {
  }

  /** Six padded digits, trimmed, denote the remainder's share of a million. */
  lemma FractionDigits(remainder: nat)
    requires 0 < remainder < 1_000_000
    ensures 1 <= |Format(remainder)| <= 6
    ensures var t := TrimZeros(Zeros(6 - |Format(remainder)|) + Format(remainder));
            AllDigits(t) && Value(t) as real / Pow10(|t|) as real == remainder as real / 1_000_000.0
  {
    hide Value, Pow10, TrimZeros, Format, Zeros;
    MillionDigits();
    FormatLength(remainder, 6);
    FormatRoundTrip(remainder);
    var fraction := Format(remainder);
    var padding := Zeros(6 - |fraction|);
    ValueOfZeros(padding);
    ValueAppend(padding, fraction);
    TrimKeepsFraction(padding + fraction);
  }
}
