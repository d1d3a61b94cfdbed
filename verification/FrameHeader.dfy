/** The Content-Length header field that internal/dap/codec.go and internal/perf/stream.go
    both parse. Byte strings are strings whose characters stand for bytes. */
module FrameHeader {

  import opened Prelude
  import opened Decimal

  const MAX_CONTENT_LENGTH := 0x10_0000
  const MAX_HEADER_LENGTH := 0x2000
  const LINE_END := "\r\n"
  const HEADER_END := "\r\n\r\n"
  const FIELD_NAME := "content-length"

  function Lower(c: char): char {
    if 'A' <= c <= 'Z' then (c as int + 32) as char else c
  }

  /** strings.EqualFold against the field name, none of whose letters folds beyond ASCII. */
  predicate IsFieldName(name: string) {
    |name| == |FIELD_NAME| && forall i :: 0 <= i < |name| ==> Lower(name[i]) == FIELD_NAME[i]
  }

  /** The UTF-8 encodings of the characters that unicode.IsSpace accepts. */
  predicate IsSpace(s: string) {
    || (|s| == 1 && (s[0] == ' ' || '\t' <= s[0] <= '\r'))
    || (|s| == 2 && s[0] == '\U{C2}' && (s[1] == '\U{85}' || s[1] == '\U{A0}'))
    || (|s| == 3 && s[0] == '\U{E1}' && s[1] == '\U{9A}' && s[2] == '\U{80}')
    || (|s| == 3 && s[0] == '\U{E2}' && s[1] == '\U{80}'
        && ('\U{80}' <= s[2] <= '\U{8A}' || s[2] == '\U{A8}' || s[2] == '\U{A9}' || s[2] == '\U{AF}'))
    || (|s| == 3 && s[0] == '\U{E2}' && s[1] == '\U{81}' && s[2] == '\U{9F}')
    || (|s| == 3 && s[0] == '\U{E3}' && s[1] == '\U{80}' && s[2] == '\U{80}')
  }

  function TrimLeft(s: string): (t: string)
    ensures |t| <= |s|
  {
    if |s| >= 1 && IsSpace(s[..1]) then TrimLeft(s[1..])
    else if |s| >= 2 && IsSpace(s[..2]) then TrimLeft(s[2..])
    else if |s| >= 3 && IsSpace(s[..3]) then TrimLeft(s[3..])
    else s
  }

  function TrimRight(s: string): (t: string)
    ensures |t| <= |s|
  {
    if |s| >= 1 && IsSpace(s[|s| - 1..]) then TrimRight(s[..|s| - 1])
    else if |s| >= 2 && IsSpace(s[|s| - 2..]) then TrimRight(s[..|s| - 2])
    else if |s| >= 3 && IsSpace(s[|s| - 3..]) then TrimRight(s[..|s| - 3])
    else s
  }

  /** bytes.TrimSpace */
  function TrimSpace(s: string): string {
    TrimRight(TrimLeft(s))
  }

  /** The position of the first c, or the length. */
  function Find(s: string, c: char): (n: nat)
    ensures n <= |s| && (n < |s| ==> s[n] == c) && c !in s[..n]
  {
    if s == "" || s[0] == c then 0 else 1 + Find(s[1..], c)
  }

  /** The length a header line announces, if it is a well-formed Content-Length field. */
  function FieldLength(line: string): (r: Option<nat>)
    ensures r.Some? ==> r.value <= MAX_CONTENT_LENGTH
  {
    var colon := Find(line, ':');
    if colon == |line| || !IsFieldName(line[..colon]) then None
    else
      var value := TrimSpace(line[colon + 1..]);
      var parsed := ParseUint(value);
      if parsed.None? || parsed.value > MAX_CONTENT_LENGTH then None else Some(parsed.value)
  }

  /** The field that the encoder writes for a body of n bytes. */
  function FieldFor(n: nat): string {
    "Content-Length: " + Format(n)
  }

  lemma {:induction false} FindAfter(a: string, c: char, b: string)
    requires c !in a
    ensures Find(a + [c] + b, c) == |a|
  {
    if a != "" {
      FindAfter(a[1..], c, b);
      assert (a + [c] + b)[1..] == a[1..] + [c] + b;
    } else {
      assert a + [c] + b == [c] + b;
    }
  }

  lemma DigitsAreNotSpace(s: string)
    requires s != "" && IsDigit(s[0])
    ensures !IsSpace(s)
  {
  }

  lemma DigitsUntrimmed(s: string)
    requires s != "" && AllDigits(s)
    ensures TrimRight(s) == s && TrimLeft(s) == s
  {
    hide IsSpace;
    forall t | t != "" && IsDigit(t[0])
      ensures !IsSpace(t)
    {
      DigitsAreNotSpace(t);
    }
  }

  lemma SpaceTrimmed(s: string)
    requires s != "" && AllDigits(s)
    ensures TrimSpace(" " + s) == s
  {
    DigitsUntrimmed(s);
    assert (" " + s)[1..] == s && (" " + s)[..1] == " ";
    assert IsSpace(" ");
    hide IsSpace, TrimRight;
  }

  lemma NamesField()
    ensures IsFieldName("Content-Length")
    ensures ':' !in "Content-Length" && '\r' !in "Content-Length" && '\n' !in "Content-Length"
  {
  }

  /** The announced length is read back. */
  lemma FieldRoundTrip(n: nat)
    requires n <= MAX_CONTENT_LENGTH
    ensures FieldLength(FieldFor(n)) == Some(n)
    ensures '\r' !in FieldFor(n) && '\n' !in FieldFor(n)
    ensures |FieldFor(n)| <= 23
  {
    hide Format, Find, TrimSpace, IsFieldName, Value, Pow10;
    FormatRoundTrip(n);
    FormatLengthMillion(n);
    ParseFormat(n);
    NamesField();
    var name, digits := "Content-Length", Format(n);
    var value := " " + digits;
    SpaceTrimmed(digits);
    FindAfter(name, ':', value);
    var line := name + [':'] + value;
    assert FieldFor(n) == line;
    assert line[..|name|] == name && line[|name| + 1..] == value;
  }

  lemma FormatLengthMillion(n: nat)
    requires n <= MAX_CONTENT_LENGTH
    ensures |Format(n)| <= 7
  {
    assert Pow10(7) == 10_000_000;
    FormatLength(n, 7);
  }
}
