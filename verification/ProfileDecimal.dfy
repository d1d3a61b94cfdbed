/** Exact decimal numbers kept as text (internal/profile/import.go): which texts are numbers, and
    how two of them compare. */
module ProfileDecimal {

  import opened Prelude
  import opened Decimal

  const MAX_NUMERIC_DIGITS := 128

  datatype NumberError = InvalidNumber | NumericPrecisionLimit

  // ---------- Which texts are numbers ----------

  function CountDigits(s: string): nat {
    if s == "" then 0 else CountDigits(s[..|s| - 1]) + if IsDigit(s[|s| - 1]) then 1 else 0
  }

  /** Digits, with one point strictly inside if a fraction is allowed. */
  predicate IsNumber(s: string, integer: bool) {
    || (s != "" && AllDigits(s))
    || (!integer && exists k :: 0 < k < |s| - 1 && HasPointAt(s, k))
  }

  predicate HasPointAt(s: string, k: nat) {
    k < |s| && s[k] == '.' && AllDigits(s[..k]) && AllDigits(s[k + 1..])
  }

  /** The byte at i can belong to a number: a digit, or the first point, strictly inside. */
  predicate Permitted(s: string, integer: bool, i: nat)
    requires i < |s|
  {
    IsDigit(s[i]) || (s[i] == '.' && !integer && 0 < i < |s| - 1 && '.' !in s[..i])
  }

  /** More digits than allowed come before anything that cannot belong to a number. */
  ghost predicate Overlong(s: string, integer: bool) {
    exists n :: 0 <= n <= |s| && (forall i :: 0 <= i < n ==> Permitted(s, integer, i)) && TooMany(s, n)
  }

  predicate TooMany(s: string, n: nat)
    requires n <= |s|
  {
    CountDigits(s[..n]) > MAX_NUMERIC_DIGITS
  }

  method ValidateNumber(value: string, integer: bool) returns (r: Result<(), NumberError>)
    ensures r.Ok? <==> IsNumber(value, integer) && CountDigits(value) <= MAX_NUMERIC_DIGITS
    ensures r == Err(NumericPrecisionLimit) <==> Overlong(value, integer)
  {
    if value == "" { return Err(InvalidNumber); }
    var digits, dot := 0, false;
    ghost var point: nat := 0;
    for index := 0 to |value|
      invariant digits == CountDigits(value[..index]) <= MAX_NUMERIC_DIGITS
      invariant forall i :: 0 <= i < index ==> Permitted(value, integer, i)
      invariant dot <==> '.' in value[..index]
      invariant !dot ==> AllDigits(value[..index])
      invariant dot ==> 0 < point < |value| - 1 && point < index && !integer && HasPointAt(value[..index], point)
    {
      hide CountDigits;
      var b := value[index];
      NextByte(value, index);
      if IsDigit(b) {
        digits := digits + 1;
        if digits > MAX_NUMERIC_DIGITS {
          assert TooMany(value, index + 1);
          DigitsOnlyGrow(value, index + 1);
          return Err(NumericPrecisionLimit);
        }
        PointStays(value, index, point);
        continue;
      }
      if b == '.' && !integer && !dot && index != 0 && index != |value| - 1 {
        NewPoint(value, index);
        dot, point := true, index;
        continue;
      }
      BadByte(value, integer, index, dot, point);
      NotOverlong(value, integer, index);
      return Err(InvalidNumber);
    }
    assert value[..|value|] == value;
    NotOverlong(value, integer, |value|);
    return Ok(());
  }

  lemma NextByte(s: string, i: nat)
    requires i < |s|
    ensures CountDigits(s[..i + 1]) == CountDigits(s[..i]) + if IsDigit(s[i]) then 1 else 0
    ensures '.' in s[..i + 1] <==> '.' in s[..i] || s[i] == '.'
  {
    assert s[..i + 1][..i] == s[..i];
    assert s[..i + 1] == s[..i] + [s[i]];
  }

  /** If few digits come before the end or the first bad byte, the text is not overlong. */
  lemma NotOverlong(s: string, integer: bool, end: nat)
    requires end <= |s| && !TooMany(s, end) && (end < |s| ==> !Permitted(s, integer, end))
    ensures !Overlong(s, integer)
  {
    hide CountDigits;
    forall n | 0 <= n <= |s| && (forall i :: 0 <= i < n ==> Permitted(s, integer, i)) ensures !TooMany(s, n) {
      assert n <= end;
      DigitsOnlyGrow(s[..end], n);
      assert s[..end][..n] == s[..n];
    }
  }

  lemma NewPoint(value: string, index: nat)
    requires index < |value| && value[index] == '.' && AllDigits(value[..index])
    ensures HasPointAt(value[..index + 1], index)
  {
    assert value[..index + 1][..index] == value[..index];
    assert value[..index + 1][index + 1..] == "";
  }

  lemma PointStays(value: string, index: nat, point: nat)
    requires index < |value| && IsDigit(value[index])
    ensures AllDigits(value[..index]) ==> AllDigits(value[..index + 1])
    ensures point < index && HasPointAt(value[..index], point) ==> HasPointAt(value[..index + 1], point)
  {
    if point < index && HasPointAt(value[..index], point) {
      assert value[..index + 1][..point] == value[..index][..point];
      assert value[..index + 1][point + 1..] == value[..index][point + 1..] + [value[index]];
    }
  }

  lemma {:induction false} DigitsOnlyGrow(s: string, n: nat)
    requires n <= |s|
    ensures CountDigits(s[..n]) <= CountDigits(s)
  {
    if n == |s| {
      assert s[..n] == s;
    } else {
      DigitsOnlyGrow(s[..|s| - 1], n);
      assert s[..|s| - 1][..n] == s[..n];
    }
  }

  /** A byte that is no digit spoils a number, except for one point strictly inside. */
  lemma BadByte(value: string, integer: bool, index: nat, dot: bool, point: nat)
    requires index < |value| && !IsDigit(value[index])
    requires !(value[index] == '.' && !integer && !dot && index != 0 && index != |value| - 1)
    requires dot ==> point < index && HasPointAt(value[..index], point)
    ensures !IsNumber(value, integer)
  {
    forall k: nat | k < |value| ensures HasPointAt(value, k) ==> k == index && (dot ==> k == point) {
      if HasPointAt(value, k) { RestAreDigits(value, k); }
    }
  }

  lemma RestAreDigits(s: string, k: nat)
    requires HasPointAt(s, k)
    ensures forall j :: 0 <= j < |s| && j != k ==> IsDigit(s[j])
  {
    assert forall j :: 0 <= j < k ==> s[j] == s[..k][j];
    assert forall j :: k < j < |s| ==> s[j] == s[k + 1..][j - k - 1];
  }

  // ---------- Comparing ----------

  /** strings.TrimLeft(s, "0") */
  function TrimZeros(s: string): (t: string)
    ensures t == "" || t[0] != '0'
  {
    if s != "" && s[0] == '0' then TrimZeros(s[1..]) else s
  }

  /** strings.Compare */
  function CompareText(a: string, b: string): int {
    if a == "" then (if b == "" then 0 else -1)
    else if b == "" then 1
    else if a[0] < b[0] then -1
    else if a[0] > b[0] then 1
    else CompareText(a[1..], b[1..])
  }

  function DigitAt(f: string, i: nat): char {
    if i < |f| then f[i] else '0'
  }

  function CompareFraction(l: string, r: string, i: nat): int
    decreases Max(|l|, |r|) - i
  {
    if i >= Max(|l|, |r|) then 0
    else if DigitAt(l, i) < DigitAt(r, i) then -1
    else if DigitAt(l, i) > DigitAt(r, i) then 1
    else CompareFraction(l, r, i + 1)
  }

  function Compare(left: string, right: string): int {
    var (leftWhole, leftFraction) := CutDot(left);
    var (rightWhole, rightFraction) := CutDot(right);
    var l, r := TrimZeros(leftWhole), TrimZeros(rightWhole);
    if |l| < |r| then -1
    else if |l| > |r| then 1
    else
      var integer := CompareText(l, r);
      if integer != 0 then integer else CompareFraction(leftFraction, rightFraction, 0)
  }

  method CompareDecimal(left: string, right: string) returns (c: int)
    ensures c == Compare(left, right)
  {
    var (leftWhole, leftFraction) := CutDot(left);
    var (rightWhole, rightFraction) := CutDot(right);
    leftWhole := TrimZeros(leftWhole);
    rightWhole := TrimZeros(rightWhole);
    if |leftWhole| < |rightWhole| { return -1; }
    if |leftWhole| > |rightWhole| { return 1; }
    var integer := CompareText(leftWhole, rightWhole);
    if integer != 0 { return integer; }
    var index := 0;
    while index < Max(|leftFraction|, |rightFraction|)
      invariant index >= 0
      invariant CompareFraction(leftFraction, rightFraction, 0) == CompareFraction(leftFraction, rightFraction, index)
    {
      var l, r := '0', '0';
      if index < |leftFraction| { l := leftFraction[index]; }
      if index < |rightFraction| { r := rightFraction[index]; }
      if l < r { return -1; }
      if l > r { return 1; }
      index := index + 1;
    }
    return 0;
  }

  // ---------- Comparison is exact ----------

  /** c has the sign of x - y. */
  predicate Orders(c: int, x: real, y: real) {
    (c < 0 <==> x < y) && (c > 0 <==> x > y)
  }

  predicate OrdersInt(c: int, x: int, y: int) {
    (c < 0 <==> x < y) && (c > 0 <==> x > y)
  }

  lemma HeadFirst(c: char, rest: string)
    requires IsDigit(c) && AllDigits(rest)
    ensures AllDigits([c] + rest) && Value([c] + rest) == DigitValue(c) * Pow10(|rest|) + Value(rest)
    ensures Value(rest) < Pow10(|rest|)
  {
    ValueAppend([c], rest);
    ValueBound(rest);
    assert Value([c]) == DigitValue(c) by { assert [c][..0] == ""; }
  }

  lemma HeadDecides(x: nat, y: nat, p: nat, v: nat, w: nat)
    requires v < p && w < p
    ensures x < y ==> x * p + v < y * p + w
  {
    if x < y {
      assert (x + 1) * p <= y * p;
    }
  }

  /** Texts of one length compare as the numbers they are. */
  lemma {:induction false} CompareTextExact(a: string, b: string)
    requires AllDigits(a) && AllDigits(b) && |a| == |b|
    ensures OrdersInt(CompareText(a, b), Value(a), Value(b))
  {
    if a == "" {
      assert b == "";
    } else {
      hide Value, Pow10;
      var p := Pow10(|a| - 1);
      assert a == [a[0]] + a[1..] && b == [b[0]] + b[1..];
      HeadFirst(a[0], a[1..]);
      HeadFirst(b[0], b[1..]);
      HeadDecides(DigitValue(a[0]), DigitValue(b[0]), p, Value(a[1..]), Value(b[1..]));
      HeadDecides(DigitValue(b[0]), DigitValue(a[0]), p, Value(b[1..]), Value(a[1..]));
      CompareTextExact(a[1..], b[1..]);
    }
  }

  lemma {:induction false} TrimExact(s: string)
    requires AllDigits(s)
    ensures AllDigits(TrimZeros(s)) && Value(TrimZeros(s)) == Value(s)
  {
    if s != "" && s[0] == '0' {
      TrimExact(s[1..]);
      assert s == ['0'] + s[1..];
      HeadFirst('0', s[1..]);
    }
  }

  lemma AtLeast(b: string)
    requires b != "" && AllDigits(b) && b[0] != '0'
    ensures Value(b) >= Pow10(|b| - 1)
  {
    hide Value, Pow10;
    assert b == [b[0]] + b[1..];
    HeadFirst(b[0], b[1..]);
    assert DigitValue(b[0]) >= 1;
    Multiple(DigitValue(b[0]), Pow10(|b| - 1));
  }

  lemma Multiple(d: nat, p: nat)
    requires d >= 1
    ensures d * p >= p
  {
  }

  lemma LongerIsGreater(a: string, b: string)
    requires AllDigits(a) && AllDigits(b) && |a| < |b| && b[0] != '0'
    ensures Value(a) < Value(b)
  {
    hide Value, Pow10;
    ValueBound(a);
    AtLeast(b);
    PowMonotone(|a|, |b| - 1);
  }

  lemma {:induction false} PowMonotone(i: nat, j: nat)
    requires i <= j
    ensures Pow10(i) <= Pow10(j)
  {
    if i < j { PowMonotone(i, j - 1); }
  }

  /** Whole parts, leading zeros or not. */
  lemma WholeExact(a: string, b: string)
    requires AllDigits(a) && AllDigits(b)
    ensures var l, r := TrimZeros(a), TrimZeros(b);
            && (|l| < |r| ==> Value(a) < Value(b)) && (|l| > |r| ==> Value(a) > Value(b))
            && (|l| == |r| ==> OrdersInt(CompareText(l, r), Value(a), Value(b)))
  {
    hide CompareText, Value;
    var l, r := TrimZeros(a), TrimZeros(b);
    TrimExact(a);
    TrimExact(b);
    if |l| < |r| {
      LongerIsGreater(l, r);
    } else if |l| > |r| {
      LongerIsGreater(r, l);
    } else {
      CompareTextExact(l, r);
    }
  }

  function Padded(f: string, n: nat): (p: string)
    requires |f| <= n
    ensures |p| == n && forall i :: 0 <= i < n ==> p[i] == DigitAt(f, i)
  {
    f + Zeros(n - |f|)
  }

  lemma {:induction false} FractionIsText(l: string, r: string, i: nat)
    requires i <= Max(|l|, |r|)
    ensures var n := Max(|l|, |r|); CompareFraction(l, r, i) == CompareText(Padded(l, n)[i..], Padded(r, n)[i..])
    decreases Max(|l|, |r|) - i
  {
    var n := Max(|l|, |r|);
    if i < n {
      FractionIsText(l, r, i + 1);
      var a, b := Padded(l, n), Padded(r, n);
      assert a[i..][1..] == a[i + 1..] && b[i..][1..] == b[i + 1..];
      assert a[i..][0] == DigitAt(l, i) && b[i..][0] == DigitAt(r, i);
      hide Padded;
    }
  }

  ghost function FractionValue(f: string): real
    requires AllDigits(f)
  {
    Value(f) as real / Pow10(|f|) as real
  }

  lemma FractionBelowOne(f: string)
    requires AllDigits(f)
    ensures 0.0 <= FractionValue(f) < 1.0
  {
    ValueBound(f);
    Quotient(Value(f), Pow10(|f|));
  }

  lemma Quotient(v: nat, p: nat)
    requires v < p
    ensures 0.0 <= v as real / p as real < 1.0
  {
  }

  lemma PaddedExact(f: string, n: nat)
    requires AllDigits(f) && |f| <= n
    ensures AllDigits(Padded(f, n)) && FractionValue(Padded(f, n)) == FractionValue(f)
  {
    var zeros := Zeros(n - |f|);
    ValueAppend(f, zeros);
    ValueOfZeros(zeros);
    Pow10Sum(|f|, n - |f|);
    Cancel(Value(f), Pow10(|f|), Pow10(n - |f|));
  }

  lemma Cancel(v: nat, p: nat, k: nat)
    requires p > 0 && k > 0
    ensures p * k > 0 && (v * k) as real / (p * k) as real == v as real / p as real
  {
    assert (v * k) as real == v as real * k as real && (p * k) as real == p as real * k as real;
  }

  lemma SameDenominator(v: nat, w: nat, p: nat, c: int)
    requires p > 0 && OrdersInt(c, v, w)
    ensures Orders(c, v as real / p as real, w as real / p as real)
  {
    if v < w {
      assert v as real < w as real;
    } else if v > w {
      assert v as real > w as real;
    }
  }

  lemma FractionExact(l: string, r: string)
    requires AllDigits(l) && AllDigits(r)
    ensures Orders(CompareFraction(l, r, 0), FractionValue(l), FractionValue(r))
  {
    hide Value, Pow10, CompareFraction, CompareText, Padded;
    var n := Max(|l|, |r|);
    var a, b := Padded(l, n), Padded(r, n);
    FractionIsText(l, r, 0);
    assert a[0..] == a && b[0..] == b;
    PaddedExact(l, n);
    PaddedExact(r, n);
    CompareTextExact(a, b);
    SameDenominator(Value(a), Value(b), Pow10(n), CompareText(a, b));
  }

  lemma WholesDecide(x: int, y: int, f: real, g: real)
    requires 0.0 <= f < 1.0 && 0.0 <= g < 1.0
    ensures x < y ==> x as real + f < y as real + g
    ensures x == y ==> (x as real + f < y as real + g <==> f < g)
  {
    if x < y {
      assert x as real + 1.0 <= y as real;
    }
  }

  /** The sign of the exact difference, for every pair of decimals. */
  lemma CompareExact(left: string, right: string)
    requires IsDecimal(left) && IsDecimal(right)
    ensures Orders(Compare(left, right), RealValue(left), RealValue(right))
  {
    var (lw, lf) := CutDot(left);
    var (rw, rf) := CutDot(right);
    hide Value, Pow10, CompareFraction, CompareText, TrimZeros, CutDot;
    WholeExact(lw, rw);
    FractionExact(lf, rf);
    FractionBelowOne(lf);
    FractionBelowOne(rf);
    WholesDecide(Value(lw), Value(rw), FractionValue(lf), FractionValue(rf));
    WholesDecide(Value(rw), Value(lw), FractionValue(rf), FractionValue(lf));
  }

  /** Every text that passes as a number is a decimal. */
  lemma NumberIsDecimal(s: string, integer: bool)
    requires IsNumber(s, integer)
    ensures IsDecimal(s)
  {
    if AllDigits(s) {
      assert '.' !in s;
      CutJoined(s, "");
    } else {
      var k :| 0 < k < |s| - 1 && HasPointAt(s, k);
      var whole, fraction := s[..k], s[k + 1..];
      assert '.' !in whole;
      assert s == whole + "." + fraction;
      CutJoined(whole, fraction);
    }
  }

  /** Hence a total preorder. */
  lemma ComparePreorder(a: string, b: string, c: string)
    requires IsDecimal(a) && IsDecimal(b) && IsDecimal(c)
    ensures (Compare(a, b) > 0 <==> Compare(b, a) < 0) && (Compare(a, b) == 0 <==> RealValue(a) == RealValue(b))
    ensures Compare(a, b) <= 0 && Compare(b, c) <= 0 ==> Compare(a, c) <= 0
  {
    hide Compare, RealValue;
    CompareExact(a, b);
    CompareExact(b, a);
    CompareExact(b, c);
    CompareExact(a, c);
  }

  /** Zeros in front and behind do not count: 01.50 is 1.5. */
  lemma ZerosDoNotCount(whole: string, fraction: string, i: nat, j: nat)
    requires AllDigits(whole) && AllDigits(fraction)
    ensures var longer, shorter := Zeros(i) + whole + "." + fraction + Zeros(j), whole + "." + fraction;
            IsDecimal(longer) && IsDecimal(shorter) && Compare(longer, shorter) == 0
  {
    hide Compare, Value, Pow10, CutDot;
    var longWhole, longFraction := Zeros(i) + whole, fraction + Zeros(j);
    var longer, shorter := Zeros(i) + whole + "." + fraction + Zeros(j), whole + "." + fraction;
    assert longer == longWhole + "." + longFraction;
    assert '.' !in longWhole && '.' !in whole;
    CutJoined(longWhole, longFraction);
    CutJoined(whole, fraction);
    ValueAppend(Zeros(i), whole);
    ValueOfZeros(Zeros(i));
    PaddedExact(fraction, |fraction| + j);
    assert Padded(fraction, |fraction| + j) == longFraction;
    CompareExact(longer, shorter);
  }
}
