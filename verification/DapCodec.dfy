/** Content-Length framing (internal/dap/codec.go). Bodies are opaque byte strings; the
    JSON envelope inside them is not part of this model. */
module DapCodec {

  import opened Prelude
  import opened Decimal
  import opened FrameHeader

  datatype CodecError =
    | ContentTooLong
    | WriteFailed
    | EndOfStream
    | TruncatedHeaders
    | HeaderLineTooLong
    | HeadersTooLong
    | NotCrlf
    | MalformedHeader
    | UnsupportedHeader
    | DuplicateLength
    | InvalidLength
    | MissingLength
    | TruncatedBody

  // ---------- Encoding ----------

  function Frame(body: string): string {
    FieldFor(|body|) + HEADER_END + body
  }

  function Frames(bodies: seq<string>): string {
    if bodies == [] then "" else Frame(bodies[0]) + Frames(bodies[1..])
  }

  predicate Encodable(bodies: seq<string>) {
    forall i :: 0 <= i < |bodies| ==> |bodies[i]| <= MAX_CONTENT_LENGTH
  }

  // ---------- Decoding ----------

  /** One header line and the bytes after it. */
  function HeaderLine(input: string): (r: Result<(string, string), CodecError>)
    ensures r.Ok? ==> |r.value.1| < |input| && input == r.value.0 + LINE_END + r.value.1 && '\n' !in r.value.0
  {
    var n := Find(input, '\n');
    var length := if n < |input| then n + 1 else n;
    if length > MAX_HEADER_LENGTH then Err(HeaderLineTooLong)
    else if n == |input| then Err(if input == "" then EndOfStream else TruncatedHeaders)
    else if n == 0 || input[n - 1] != '\r' then Err(NotCrlf)
    else
      assert input == input[..n - 1] + LINE_END + input[n + 1..];
      assert forall i :: 0 <= i < n - 1 ==> input[..n - 1][i] == input[..n][i];
      Ok((input[..n - 1], input[n + 1..]))
  }

  function LineError(line: string, duplicate: bool): CodecError {
    var colon := Find(line, ':');
    if colon == |line| || colon == 0 then MalformedHeader
    else if !IsFieldName(line[..colon]) then UnsupportedHeader
    else if duplicate then DuplicateLength
    else InvalidLength
  }

  /** The announced length and the bytes after the blank line. */
  function Headers(input: string, total: nat, found: Option<nat>): (r: Result<(nat, string), CodecError>)
    ensures r.Ok? ==> |r.value.1| < |input|
    decreases |input|
  {
    var next := HeaderLine(input);
    if next.Err? then Err(next.error)
    else
      var (line, rest) := next.value;
      var total := total + |line| + 2;
      if total > MAX_HEADER_LENGTH then Err(HeadersTooLong)
      else if line == "" then
        if found.None? then Err(MissingLength) else Ok((found.value, rest))
      else if found.Some? || FieldLength(line).None? then Err(LineError(line, found.Some?))
      else Headers(rest, total, FieldLength(line))
  }

  /** One frame's body and the bytes after it. */
  function DecodeFrame(input: string): (r: Result<(string, string), CodecError>)
    ensures r.Ok? ==> |r.value.1| < |input|
  {
    var headers := Headers(input, 0, None);
    if headers.Err? then Err(headers.error)
    else
      var (length, rest) := headers.value;
      if |rest| < length then Err(TruncatedBody) else Ok((rest[..length], rest[length..]))
  }

  /** Every body up to the first failure, and that failure. */
  function DecodeAll(input: string): (seq<string>, CodecError)
    decreases |input|
  {
    var frame := DecodeFrame(input);
    if frame.Err? then ([], frame.error)
    else
      var rest := DecodeAll(frame.value.1);
      ([frame.value.0] + rest.0, rest.1)
  }

  /** How the n-th write to the underlying writer ends: how much it takes, and whether it fails. */
  type Writer = nat -> (nat, bool)

  /** Every write takes something, if not all. */
  ghost predicate Works(w: Writer) {
    forall n: nat :: w(n).0 > 0 && !w(n).1
  }

  class Encoder {
    const writer: Writer
    var writes: nat
    var output: string

    constructor (writer: Writer)
      ensures output == "" && this.writer == writer
    {
      this.writer := writer;
      writes, output := 0, "";
    }

    /** Writes until everything is taken; a write that fails or takes nothing ends it. */
    method WriteAll(data: string) returns (ok: bool)
      modifies this
      ensures old(output) <= output <= old(output) + data
      ensures ok ==> output == old(output) + data
      ensures Works(writer) ==> ok
    {
      var left := data;
      while left != ""
        invariant output + left == old(output) + data && old(output) <= output
        decreases |left|
      {
        var (taken, failed) := writer(writes);
        var n := Min(taken, |left|);
        writes := writes + 1;
        output, left := output + left[..n], left[n..];
        assert output <= old(output) + data;
        if failed || n == 0 { return false; }
      }
      return true;
    }

    method Encode(body: string) returns (failure: Option<CodecError>)
      modifies this
      ensures failure == Some(ContentTooLong) <==> |body| > MAX_CONTENT_LENGTH
      ensures failure.None? ==> output == old(output) + Frame(body)
      ensures failure == Some(ContentTooLong) ==> output == old(output)
      ensures old(output) <= output <= old(output) + Frame(body)
      ensures Works(writer) && |body| <= MAX_CONTENT_LENGTH ==> failure.None?
    {
      if |body| > MAX_CONTENT_LENGTH {
        assert old(output) <= old(output) + Frame(body);
        return Some(ContentTooLong);
      }
      var header := "Content-Length: " + Format(|body|) + "\r\n\r\n";
      assert Frame(body) == header + body;
      hide Format, Frame;
      var ok := WriteAll(header);
      assert old(output) + Frame(body) == (old(output) + header) + body;
      if !ok { return Some(WriteFailed); }
      ok := WriteAll(body);
      return if ok then None else Some(WriteFailed);
    }
  }

  /** Reads frames from the front of a byte stream. */
  class Decoder {
    var input: string

    constructor (input: string)
      ensures this.input == input
    {
      this.input := input;
    }

    method ReadHeaderLine() returns (r: Result<string, CodecError>)
      modifies this
      ensures match HeaderLine(old(input))
              case Ok(next) => r == Ok(next.0) && input == next.1
              case Err(e) => r == Err(e)
    {
      hide Find;
      var line := "";
      ghost var before := input;
      while input != "" && (line == "" || line[|line| - 1] != '\n')
        invariant before == line + input
        invariant forall i :: 0 <= i < |line| - 1 ==> line[i] != '\n'
        decreases |input|
      {
        line := line + [input[0]];
        input := input[1..];
      }
      LineFound(before, line, input);
      hide HeaderLine;
      if |line| > MAX_HEADER_LENGTH { return Err(HeaderLineTooLong); }
      if line == "" { return Err(EndOfStream); }
      if line[|line| - 1] != '\n' { return Err(TruncatedHeaders); }
      if |line| < 2 || line[|line| - 2] != '\r' { return Err(NotCrlf); }
      return Ok(line[..|line| - 2]);
    }

    method ReadContentLength() returns (r: Result<nat, CodecError>)
      modifies this
      ensures match Headers(old(input), 0, None)
              case Ok(next) => r == Ok(next.0) && input == next.1
              case Err(e) => r == Err(e)
    {
      hide HeaderLine, Find, TrimSpace, ParseUint;
      var found: Option<nat> := None;
      var total := 0;
      while true
        invariant total >= 0 && Headers(old(input), 0, None) == Headers(input, total, found)
        decreases |input|
      {
        var line := ReadHeaderLine();
        if line.Err? { return Err(line.error); }
        total := total + |line.value| + 2;
        if total > MAX_HEADER_LENGTH { return Err(HeadersTooLong); }
        if line.value == "" { break; }
        var colon := Find(line.value, ':');
        if colon == |line.value| || colon == 0 { return Err(MalformedHeader); }
        if !IsFieldName(line.value[..colon]) { return Err(UnsupportedHeader); }
        if found.Some? { return Err(DuplicateLength); }
        var value := TrimSpace(line.value[colon + 1..]);
        var parsed := ParseUint(value);
        if parsed.None? || parsed.value > MAX_CONTENT_LENGTH { return Err(InvalidLength); }
        found := Some(parsed.value);
      }
      return if found.None? then Err(MissingLength) else Ok(found.value);
    }

    method Decode() returns (r: Result<string, CodecError>)
      modifies this
      ensures match DecodeFrame(old(input))
              case Ok(next) => r == Ok(next.0) && input == next.1
              case Err(e) => r == Err(e)
    {
      var length := ReadContentLength();
      if length.Err? { return Err(length.error); }
      if |input| < length.value { return Err(TruncatedBody); }
      r := Ok(input[..length.value]);
      input := input[length.value..];
    }
  }

  /** What the bytes up to and including the first line feed, or all there are, amount to. */
  function LineResult(line: string): Result<string, CodecError> {
    if |line| > MAX_HEADER_LENGTH then Err(HeaderLineTooLong)
    else if line == "" then Err(EndOfStream)
    else if line[|line| - 1] != '\n' then Err(TruncatedHeaders)
    else if |line| < 2 || line[|line| - 2] != '\r' then Err(NotCrlf)
    else Ok(line[..|line| - 2])
  }

  lemma FeedFound(before: string, line: string, rest: string)
    requires before == line + rest
    requires forall i :: 0 <= i < |line| - 1 ==> line[i] != '\n'
    requires rest == "" || (line != "" && line[|line| - 1] == '\n')
    ensures Find(before, '\n') == if line != "" && line[|line| - 1] == '\n' then |line| - 1 else |before|
  {
    hide Find;
    if line != "" && line[|line| - 1] == '\n' {
      var head := line[..|line| - 1];
      assert before == head + ['\n'] + rest;
      FindAfter(head, '\n', rest);
    } else {
      assert before == line;
    }
  }

  lemma LineFound(before: string, line: string, rest: string)
    requires before == line + rest
    requires forall i :: 0 <= i < |line| - 1 ==> line[i] != '\n'
    requires rest == "" || (line != "" && line[|line| - 1] == '\n')
    ensures match LineResult(line)
            case Ok(text) => HeaderLine(before) == Ok((text, rest))
            case Err(e) => HeaderLine(before) == Err(e)
  {
    FeedFound(before, line, rest);
    hide Find;
    var n := Find(before, '\n');
    if |line| >= 2 && line[|line| - 1] == '\n' {
      assert before[n - 1] == line[|line| - 2] && before[..n - 1] == line[..|line| - 2] && before[n + 1..] == rest;
    }
  }

  // ---------- Round trip ----------

  lemma LineRead(line: string, rest: string)
    requires '\n' !in line && |line| + 2 <= MAX_HEADER_LENGTH
    ensures HeaderLine(line + LINE_END + rest) == Ok((line, rest))
  {
    var input := line + LINE_END + rest;
    FindAfter(line + "\r", '\n', rest);
    assert input == line + "\r" + ['\n'] + rest;
    assert input[..|line|] == line && input[|line| + 2..] == rest;
  }

  /** A well-formed field and a blank line announce their length. */
  lemma HeadersRead(line: string, rest: string)
    requires '\n' !in line && line != "" && FieldLength(line).Some? && |line| + 4 <= MAX_HEADER_LENGTH
    ensures Headers(line + HEADER_END + rest, 0, None) == Ok((FieldLength(line).value, rest))
  {
    hide FieldLength, HeaderLine;
    var after := LINE_END + rest;
    assert line + HEADER_END + rest == line + LINE_END + after;
    LineRead(line, after);
    assert after == "" + LINE_END + rest;
    LineRead("", rest);
  }

  lemma FrameRead(body: string, rest: string)
    requires |body| <= MAX_CONTENT_LENGTH
    ensures DecodeFrame(Frame(body) + rest) == Ok((body, rest))
  {
    hide FieldLength, Headers, FieldFor;
    FieldRoundTrip(|body|);
    var line := FieldFor(|body|);
    FieldNotEmpty(|body|);
    assert Frame(body) + rest == line + HEADER_END + (body + rest);
    HeadersRead(line, body + rest);
    assert (body + rest)[..|body|] == body && (body + rest)[|body|..] == rest;
  }

  lemma FieldNotEmpty(n: nat)
    ensures FieldFor(n) != ""
  {
  }

  /** Decoding the concatenation of encoded frames yields exactly the bodies, in order,
      and then a clean end of stream. */
  lemma {:induction false} FramesRoundTrip(bodies: seq<string>)
    requires Encodable(bodies)
    ensures DecodeAll(Frames(bodies)) == (bodies, EndOfStream)
  {
    if bodies == [] {
      assert DecodeFrame("") == Err(EndOfStream);
    } else {
      hide Frame, DecodeFrame;
      FramesRoundTrip(bodies[1..]);
      FrameRead(bodies[0], Frames(bodies[1..]));
      assert [bodies[0]] + bodies[1..] == bodies;
    }
  }

  /** line is the only header line of a block, and announces n bytes. */
  predicate Announces(line: string, n: nat) {
    line != "" && '\n' !in line && |line| + 4 <= MAX_HEADER_LENGTH && FieldLength(line) == Some(n)
  }

  /** A frame decodes exactly when it is one length field, a blank line and the body. */
  lemma DecodesExactly(input: string, body: string, rest: string)
    ensures DecodeFrame(input) == Ok((body, rest))
       <==> exists line :: Announces(line, |body|) && input == line + HEADER_END + body + rest
  {
    hide FieldLength, Headers;
    if DecodeFrame(input) == Ok((body, rest)) {
      var after := Headers(input, 0, None).value.1;
      var line := HeadersShape(input);
      assert after == body + rest;
      assert input == line + HEADER_END + body + rest;
    }
    forall line | Announces(line, |body|) && input == line + HEADER_END + body + rest
      ensures DecodeFrame(input) == Ok((body, rest))
    {
      assert input == line + HEADER_END + (body + rest);
      HeadersRead(line, body + rest);
      assert (body + rest)[..|body|] == body && (body + rest)[|body|..] == rest;
    }
  }

  lemma HeadersShape(input: string) returns (line: string)
    requires Headers(input, 0, None).Ok?
    ensures var (n, rest) := Headers(input, 0, None).value; Announces(line, n) && input == line + HEADER_END + rest
  {
    hide FieldLength, LineError;
    line := HeaderLine(input).value.0;
    var more := HeaderLine(input).value.1;
    var (second, rest) := HeaderLine(more).value;
    assert second == "" && more == "" + LINE_END + rest;
    assert input == line + LINE_END + (LINE_END + rest);
  }

  // ---------- Where a clean end can occur ----------

  /** input stops right after one complete Content-Length line. */
  predicate StopsAfterField(input: string) {
    && 2 < |input| <= MAX_HEADER_LENGTH && input[|input| - 2..] == LINE_END
    && '\n' !in input[..|input| - 2] && FieldLength(input[..|input| - 2]).Some?
  }

  /** The clean end of stream is reported exactly at a frame boundary or after a field line. */
  lemma CleanEndExactly(input: string)
    ensures DecodeFrame(input) == Err(EndOfStream) <==> input == "" || StopsAfterField(input)
  {
    hide FieldLength, StopsAfterField, LineError;
    var first := HeaderLine(input);
    if first.Ok? {
      var (line, rest) := first.value;
      LineThen(input, line, rest);
      LineErrors(line, false);
      if FieldLength(line).Some? {
        SecondLine(rest, |line| + 2, FieldLength(line));
      }
    } else if StopsAfterField(input) {
      FieldLineReads(input);
    }
  }

  lemma FieldLineReads(input: string)
    requires StopsAfterField(input)
    ensures HeaderLine(input).Ok?
  {
    hide FieldLength;
    LineRead(input[..|input| - 2], "");
    assert input[..|input| - 2] + LINE_END + "" == input;
  }

  lemma LineErrors(line: string, duplicate: bool)
    ensures LineError(line, duplicate) != EndOfStream
  {
  }

  lemma SecondLine(rest: string, total: nat, found: Option<nat>)
    requires found.Some?
    ensures Headers(rest, total, found) == Err(EndOfStream) <==> rest == ""
  {
    hide LineError;
    var next := HeaderLine(rest);
    if next.Ok? {
      LineErrors(next.value.0, true);
    }
  }

  /** A frame boundary is not the only place: the stream may also stop between the
      length field and the blank line without being reported as truncated. */
  lemma CleanEndInsideHeaders(n: nat)
    requires n <= MAX_CONTENT_LENGTH
    ensures DecodeFrame(FieldFor(n) + LINE_END) == Err(EndOfStream)
  {
    hide FieldLength, FieldFor, DecodeFrame;
    FieldRoundTrip(n);
    FieldNotEmpty(n);
    var input := FieldFor(n) + LINE_END;
    assert input == FieldFor(n) + LINE_END + "";
    LineThen(input, FieldFor(n), "");
    CleanEndExactly(input);
  }

  lemma LineThen(input: string, line: string, rest: string)
    requires input == line + LINE_END + rest && '\n' !in line
    ensures StopsAfterField(input) <==>
            rest == "" && line != "" && |line| + 2 <= MAX_HEADER_LENGTH && FieldLength(line).Some?
  {
    hide FieldLength;
    if rest == "" {
      assert input[..|input| - 2] == line && input[|input| - 2..] == LINE_END;
    } else {
      assert input[|line| + 1] == '\n';
      if |input| > 2 {
        assert |line| + 1 < |input| - 2 ==> input[..|input| - 2][|line| + 1] == '\n';
        assert |line| + 1 == |input| - 2 ==> input[|input| - 2..][0] == '\n';
      }
    }
  }
}
