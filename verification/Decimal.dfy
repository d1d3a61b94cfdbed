/** Base-ten text: the numerals that strconv, fmt and math/big print and read. */
module Decimal {

  import opened Prelude

  function Pow10(k: nat): (p: nat)
    ensures p >= 1
  {
    if k == 0 then 1 else 10 * Pow10(k - 1)
  }

  predicate IsDigit(c: char) {
    '0' <= c <= '9'
  }

  predicate AllDigits(s: string) {
    forall i :: 0 <= i < |s| ==> IsDigit(s[i])
  }

  function DigitOf(d: nat): (c: char)
    requires d < 10
    ensures IsDigit(c) && DigitValue(c) == d
  {
    (48 + d) as char
  }

  function DigitValue(c: char): (d: nat)
    requires IsDigit(c)
    ensures d < 10
  {
    c as int - 48
  }

  /** The number a digit string denotes; the empty string denotes zero. */
  function Value(s: string): nat
    requires AllDigits(s)
  {
    if s == "" then 0 else 10 * Value(s[..|s| - 1]) + DigitValue(s[|s| - 1])
  }

  /** strconv.FormatUint(n, 10) */
  function Format(n: nat): string {
    if n < 10 then [DigitOf(n)] else Format(n / 10) + [DigitOf(n % 10)]
  }

  /** big.Int.String() */
  function FormatInt(n: int): string {
    if n < 0 then "-" + Format(-n) else Format(n)
  }

  /** A numeral without superfluous leading zeros. */
  predicate Canonical(s: string) {
    AllDigits(s) && s != "" && (|s| > 1 ==> s[0] != '0')
  }

  lemma {:induction false} FormatRoundTrip(n: nat)
    ensures Canonical(Format(n))
    ensures Value(Format(n)) == n
    ensures n > 0 ==> Format(n)[0] != '0'
  {
    if n < 10 {
      assert Format(n)[..0] == "";
    } else {
      FormatRoundTrip(n / 10);
      var s := Format(n);
      assert s[..|s| - 1] == Format(n / 10);
    }
  }

  lemma {:induction false} FormatLength(n: nat, k: nat)
    requires k > 0 && n < Pow10(k)
    ensures 1 <= |Format(n)| <= k
  {
    if n >= 10 {
      FormatLength(n / 10, k - 1);
    }
  }

  lemma ShiftDigit(v: nat, p: nat)
    ensures 10 * (v * p) == v * (10 * p)
  {
  }

  lemma ValueSnoc(s: string, c: char)
    requires AllDigits(s) && IsDigit(c)
    ensures AllDigits(s + [c]) && Value(s + [c]) == 10 * Value(s) + DigitValue(c)
  {
    assert (s + [c])[..|s|] == s;
  }

  /** Appending one numeral after another shifts the first by its width. */
  lemma {:induction false} ValueAppend(a: string, b: string)
    requires AllDigits(a) && AllDigits(b)
    ensures AllDigits(a + b)
    ensures Value(a + b) == Value(a) * Pow10(|b|) + Value(b)
  {
    if b == "" {
      assert a + b == a;
    } else {
      var front, last := b[..|b| - 1], b[|b| - 1];
      assert Pow10(|b|) == 10 * Pow10(|front|);
      hide Value, Pow10;
      ValueAppend(a, front);
      assert a + b == (a + front) + [last] && b == front + [last];
      ValueSnoc(a + front, last);
      ValueSnoc(front, last);
      ShiftDigit(Value(a), Pow10(|front|));
    }
  }

  lemma {:induction false} ValueBound(s: string)
    requires AllDigits(s)
    ensures Value(s) < Pow10(|s|)
  {
    if s != "" {
      ValueBound(s[..|s| - 1]);
    }
  }

  /** A canonical numeral is the one printed for its value. */
  lemma {:induction false} CanonicalIsPrinted(s: string)
    requires Canonical(s)
    ensures Format(Value(s)) == s
  {
    var t := s[..|s| - 1];
    if |s| == 1 {
      assert t == "";
    } else {
      assert t[0] == s[0];
      CanonicalIsPrinted(t);
      CanonicalPositive(t);
      assert Value(s) / 10 == Value(t) && Value(s) % 10 == DigitValue(s[|s| - 1]);
      assert s == t + [s[|s| - 1]];
    }
  }

  lemma {:induction false} CanonicalPositive(s: string)
    requires Canonical(s) && s[0] != '0'
    ensures Value(s) > 0
  {
    if |s| > 1 {
      CanonicalPositive(s[..|s| - 1]);
    } else {
      assert s[..0] == "";
    }
  }

  /** strconv.ParseUint(s, 10, 64) */
  function ParseUint(s: string): (r: Option<u64>) {
    if s != "" && AllDigits(s) && Value(s) < 0x1_0000_0000_0000_0000 then Some(Value(s)) else None
  }

  lemma {:induction false} ParseFormat(n: u64)
    ensures ParseUint(Format(n)) == Some(n)
    ensures 1 <= |Format(n)| <= 20
  {
    FormatRoundTrip(n);
    assert Pow10(4) == 10_000 && Pow10(8) == 10_000 * Pow10(4);
    assert Pow10(12) == 10_000 * Pow10(8) && Pow10(16) == 10_000 * Pow10(12);
    assert Pow10(20) == 10_000 * Pow10(16);
    FormatLength(n, 20);
  }

  // ---------- Decimal fractions ----------

  function Zeros(k: nat): (s: string)
    ensures |s| == k && AllDigits(s) && forall i :: 0 <= i < k ==> s[i] == '0'
  {
    if k == 0 then "" else Zeros(k - 1) + "0"
  }

  lemma {:induction false} ValueOfZeros(s: string)
    requires forall i :: 0 <= i < |s| ==> s[i] == '0'
    ensures AllDigits(s) && Value(s) == 0
  {
    if s != "" {
      ValueOfZeros(s[..|s| - 1]);
    }
  }

  lemma {:induction false} Pow10Sum(a: nat, b: nat)
    ensures Pow10(a + b) == Pow10(a) * Pow10(b)
  {
    if b > 0 {
      Pow10Sum(a, b - 1);
      ShiftDigit(Pow10(a), Pow10(b - 1));
    }
  }

  /** strings.Cut(s, "."), without the flag. */
  function CutDot(s: string): (parts: (string, string)) {
    if s == "" then ("", "")
    else if s[0] == '.' then ("", s[1..])
    else var rest := CutDot(s[1..]); ([s[0]] + rest.0, rest.1)
  }

  lemma {:induction false} CutJoined(whole: string, fraction: string)
    requires '.' !in whole
    ensures CutDot(whole + "." + fraction) == (whole, fraction)
    ensures CutDot(whole) == (whole, "")
  {
    if whole == "" {
      assert whole + "." + fraction == "." + fraction;
    } else {
      CutJoined(whole[1..], fraction);
      assert (whole + "." + fraction)[1..] == whole[1..] + "." + fraction;
      assert [whole[0]] + whole[1..] == whole;
    }
  }

  /** A non-negative decimal: digits, then optionally a point and more digits. */
  predicate IsDecimal(s: string) {
    var (whole, fraction) := CutDot(s);
    AllDigits(whole) && AllDigits(fraction)
  }

  /** The exact number a decimal denotes. */
  ghost function RealValue(s: string): real
    requires IsDecimal(s)
  {
    var (whole, fraction) := CutDot(s);
    Value(whole) as real + Value(fraction) as real / Pow10(|fraction|) as real
  }
}
