/** What the CSV reader reads back: records written with the quoting of section 2 of RFC 4180,
    and the lines they start on. */
module ProfileCsvText {

  import opened Prelude
  import opened ProfileCsv

  // ---------- Writing ----------

  /** A cell and whether it is written in quotes. */
  datatype Field = Field(text: string, quoted: bool)

  /** A record and how its line ends. */
  datatype Line = Line(fields: seq<Field>, crlf: bool)

  predicate Plain(c: char) {
    c != ',' && c != '"' && c != '\r' && c != '\n'
  }

  predicate AllPlain(t: string) {
    forall i :: 0 <= i < |t| ==> Plain(t[i])
  }

  function Escape(t: string): string {
    if t == "" then "" else (if t[0] == '"' then "\"\"" else [t[0]]) + Escape(t[1..])
  }

  function FieldText(f: Field): string {
    if f.quoted then "\"" + Escape(f.text) + "\"" else f.text
  }

  function FieldsText(fs: seq<Field>): string
    requires fs != []
  {
    if |fs| == 1 then FieldText(fs[0]) else FieldText(fs[0]) + "," + FieldsText(fs[1..])
  }

  function Ending(crlf: bool): string {
    if crlf then "\r\n" else "\n"
  }

  function LineText(l: Line): string
    requires l.fields != []
  {
    FieldsText(l.fields) + Ending(l.crlf)
  }

  function Texts(fs: seq<Field>): seq<string> {
    if fs == [] then [] else [fs[0].text] + Texts(fs[1..])
  }

  /** Cells the reader has room for, quoted where RFC 4180 demands it. */
  predicate Writable(env: Environment, f: Field) {
    |f.text| <= MAX_CELL_BYTES && ValidCell(env, f.text) && (!f.quoted ==> AllPlain(f.text))
  }

  predicate WritableLine(env: Environment, l: Line) {
    1 <= |l.fields| <= MAX_COLUMNS && forall i :: 0 <= i < |l.fields| ==> Writable(env, l.fields[i])
  }

  predicate AllWritable(env: Environment, ls: seq<Line>) {
    forall i :: 0 <= i < |ls| ==> WritableLine(env, ls[i])
  }

  /** The input can be read and stays within the input limit. */
  ghost predicate Readable(env: Environment) {
    forall n: nat :: !env.over(n) && !env.fails(n)
  }

  // ---------- Lines ----------

  function Feeds(t: string): nat {
    if t == "" then 0 else (if t[0] == '\n' then 1 else 0) + Feeds(t[1..])
  }

  lemma {:induction false} FeedsOfBoth(a: string, b: string)
    ensures Feeds(a + b) == Feeds(a) + Feeds(b)
  {
    if a == "" {
      assert a + b == b;
    } else {
      FeedsOfBoth(a[1..], b);
      assert (a + b)[1..] == a[1..] + b;
    }
  }

  /** The state in which the scan goes on after the byte b, if it does. */
  function After(env: Environment, s: State, b: char): Option<State> {
    if s.mode == Quoted then
      if b == '"' then Some(s.(mode := AfterQuote)) else if Full(s) then None else Some(AppendByte(s, b, Quoted))
    else if s.mode == AfterQuote && b == '"' then
      if Full(s) then None else Some(AppendByte(s, b, Quoted))
    else if b == ',' then
      var r := FinishCell(env, s);
      if r.Err? then None else Some(r.value)
    else if b == '\n' || b == '\r' || s.mode == AfterQuote || (b == '"' && s.mode != FieldStart) then None
    else if b == '"' then Some(s.(mode := Quoted))
    else if Full(s) then None else Some(AppendByte(s, b, Unquoted))
  }

  lemma ScanAfter(env: Environment, input: string, s: State)
    requires input != "" && !env.over(|input| - 1) && !env.fails(|input|)
    ensures var next := s.(seen := true, line := s.line + if input[0] == '\n' then 1 else 0);
            After(env, next, input[0]).Some? ==>
              Scan(env, input, s) == Scan(env, input[1..], After(env, next, input[0]).value)
  {
  }

  function Seen(s: State, b: char): State {
    s.(seen := true, line := s.line + if b == '\n' then 1 else 0)
  }

  /** The cell under way completes the record. */
  predicate Ends(env: Environment, s: State, r: Outcome) {
    && r.Record? && s.mode != Quoted && |s.cells| != MAX_COLUMNS && ValidCell(env, s.cell)
    && r.cells == s.cells + [s.cell]
  }

  /** How a record goes on from its next byte: the scan moves on, or a line end completes it. */
  lemma ScanMoves(env: Environment, input: string, s: State)
    requires input != "" && Scan(env, input, s).Record?
    ensures var r, b, rest := Scan(env, input, s), input[0], input[1..];
            || (After(env, Seen(s, b), b).Some? && r == Scan(env, rest, After(env, Seen(s, b), b).value))
            || (Ends(env, s, r) && b == '\n' && r.rest == rest && r.line == s.line + 1)
            || (&& Ends(env, s, r) && b == '\r' && rest != "" && rest[0] == '\n'
                && r.rest == rest[1..] && r.line == s.line + 1)
  {
    hide ValidCell;
  }

  /** For every input: a record ends at the line reached by counting the line feeds in what was
      read of it. */
  lemma {:induction false} LinesCounted(env: Environment, input: string, s: State)
    requires Scan(env, input, s).Record?
    ensures var r := Scan(env, input, s);
            input[|input| - |r.rest|..] == r.rest && r.line == s.line + Feeds(input[..|input| - |r.rest|])
    decreases |input|
  {
    if input != "" {
      var b, rest, r := input[0], input[1..], Scan(env, input, s);
      var next := After(env, Seen(s, b), b);
      ScanMoves(env, input, s);
      AfterKeepsLine(env, Seen(s, b), b);
      if next.Some? { LinesCounted(env, rest, next.value); }
      hide Scan, After, ValidCell;
      var read := input[..|input| - |r.rest|];
      assert read == [b] + read[1..];
      FeedsOfBoth([b], read[1..]);
      FeedsOfChar(b);
      if next.Some? {
        assert read[1..] == rest[..|rest| - |r.rest|];
      } else if b == '\r' {
        assert read[1..] == "\n";
        FeedsOfChar('\n');
      }
    }
  }

  lemma AfterKeepsLine(env: Environment, s: State, b: char)
    ensures var t := After(env, s, b); t.Some? ==> t.value.line == s.line
    ensures (b == '\n' || b == '\r') && s.mode != Quoted ==> After(env, s, b).None?
  {
    hide ValidCell;
  }

  // ---------- Reading back ----------

  lemma {:induction false} PlainRead(env: Environment, t: string, rest: string, s: State)
    requires Readable(env) && AllPlain(t) && (s.mode == FieldStart || s.mode == Unquoted)
    requires |s.cell| + |t| <= MAX_CELL_BYTES
    ensures Scan(env, t + rest, s)
         == Scan(env, rest, if t == "" then s else s.(mode := Unquoted, cell := s.cell + t, seen := true))
  {
    hide Scan;
    if t == "" {
      assert t + rest == rest;
    } else {
      var next := AppendByte(s, t[0], Unquoted).(seen := true);
      assert (t + rest)[1..] == t[1..] + rest && Plain(t[0]) && (t + rest)[0] == t[0];
      ScanAfter(env, t + rest, s);
      assert t[1..] == "" ==> s.cell + [t[0]] == s.cell + t;
      PlainRead(env, t[1..], rest, next);
      assert s.cell + [t[0]] + t[1..] == s.cell + t;
    }
  }

  lemma {:induction false} QuotedRead(env: Environment, t: string, rest: string, s: State)
    requires Readable(env) && s.mode == Quoted && s.seen && |s.cell| + |t| <= MAX_CELL_BYTES
    ensures Scan(env, Escape(t) + "\"" + rest, s)
         == Scan(env, rest, s.(mode := AfterQuote, cell := s.cell + t, line := s.line + Feeds(t)))
  {
    hide Scan;
    var input := Escape(t) + "\"" + rest;
    if t == "" {
      assert input[1..] == rest;
      ScanAfter(env, input, s);
      assert s.cell + t == s.cell;
    } else {
      var b := t[0];
      var next := AppendByte(s, b, Quoted).(line := s.line + if b == '\n' then 1 else 0);
      var tail := Escape(t[1..]) + "\"" + rest;
      if b == '"' {
        assert input == "\"\"" + tail;
        assert input[1..] == "\"" + tail && input[1..][1..] == tail;
        ScanAfter(env, input, s);
        ScanAfter(env, input[1..], s.(mode := AfterQuote));
      } else {
        assert input == [b] + tail;
        assert input[1..] == tail;
        ScanAfter(env, input, s);
      }
      QuotedRead(env, t[1..], rest, next);
      assert s.cell + [b] + t[1..] == s.cell + t;
    }
  }

  /** The state after a field, before the comma or line end behind it. */
  function Passed(s: State, f: Field): State {
    if f.quoted then s.(mode := AfterQuote, cell := f.text, seen := true, line := s.line + Feeds(f.text))
    else if f.text == "" then s
    else s.(mode := Unquoted, cell := f.text, seen := true)
  }

  lemma FieldRead(env: Environment, f: Field, rest: string, s: State)
    requires Readable(env) && Writable(env, f) && s.mode == FieldStart && s.cell == ""
    ensures Scan(env, FieldText(f) + rest, s) == Scan(env, rest, Passed(s, f))
  {
    hide Scan, Feeds, Escape, ValidCell;
    if f.quoted {
      var input := FieldText(f) + rest;
      var open := s.(mode := Quoted, seen := true);
      assert input == "\"" + (Escape(f.text) + "\"" + rest);
      assert input[0] == '"' && input[1..] == Escape(f.text) + "\"" + rest;
      ScanAfter(env, input, s);
      QuotedRead(env, f.text, rest, open);
      assert "" + f.text == f.text;
    } else {
      PlainRead(env, f.text, rest, s);
      assert "" + f.text == f.text;
    }
  }

  lemma {:induction false} FeedsOfPlain(t: string)
    requires AllPlain(t)
    ensures Feeds(t) == 0
  {
    if t != "" {
      assert Plain(t[0]);
      FeedsOfPlain(t[1..]);
    }
  }

  lemma {:induction false} FeedsOfEscaped(t: string)
    ensures Feeds(Escape(t)) == Feeds(t)
  {
    if t != "" {
      var head := if t[0] == '"' then "\"\"" else [t[0]];
      FeedsOfEscaped(t[1..]);
      FeedsOfBoth(head, Escape(t[1..]));
      FeedsOfChar(t[0]);
    }
  }

  lemma FeedsOfChar(c: char)
    ensures Feeds([c]) == if c == '\n' then 1 else 0
    ensures Feeds("\"\"") == 0
  {
    assert "\"\""[1..] == "\"";
  }

  lemma FeedsOfField(env: Environment, f: Field)
    requires Writable(env, f)
    ensures Feeds(FieldText(f)) == Feeds(f.text)
  {
    hide Feeds, Escape;
    if f.quoted {
      FeedsOfEscaped(f.text);
      FeedsOfChar('"');
      FeedsOfBoth("\"" + Escape(f.text), "\"");
      FeedsOfBoth("\"", Escape(f.text));
    }
  }

  lemma PassedLine(env: Environment, s: State, f: Field)
    requires Writable(env, f)
    ensures Passed(s, f).line == s.line + Feeds(FieldText(f))
  {
    hide Feeds, Escape;
    FeedsOfField(env, f);
    if !f.quoted { FeedsOfPlain(f.text); }
  }

  lemma EndingRead(env: Environment, crlf: bool, rest: string, s: State)
    requires Readable(env) && s.mode != Quoted
    ensures Scan(env, Ending(crlf) + rest, s) == FinishRecord(env, s.(seen := true, line := s.line + 1), rest)
  {
    var input := Ending(crlf) + rest;
    if crlf {
      assert input[0] == '\r' && input[1] == '\n' && input[1..][1..] == rest;
    } else {
      assert input[0] == '\n' && input[1..] == rest;
    }
  }

  lemma CommaRead(env: Environment, rest: string, s: State)
    requires Readable(env) && s.mode != Quoted && |s.cells| < MAX_COLUMNS && ValidCell(env, s.cell)
    ensures Scan(env, "," + rest, s) == Scan(env, rest, State(FieldStart, s.cells + [s.cell], "", true, s.line))
  {
    hide Scan, ValidCell;
    var input := "," + rest;
    assert input[0] == ',' && input[1..] == rest;
    ScanAfter(env, input, s);
  }

  function NextField(s: State, f: Field): State {
    State(FieldStart, s.cells + [f.text], "", true, Passed(s, f).line)
  }

  /** The state after the fields of a line. */
  function PassedAll(s: State, fs: seq<Field>): State
    requires fs != []
    decreases |fs|
  {
    if |fs| == 1 then Passed(s, fs[0]) else PassedAll(NextField(s, fs[0]), fs[1..])
  }

  lemma {:induction false} FieldsRead(env: Environment, fs: seq<Field>, tail: string, s: State)
    requires Readable(env) && fs != [] && (forall i :: 0 <= i < |fs| ==> Writable(env, fs[i]))
    requires s.mode == FieldStart && s.cell == "" && |s.cells| + |fs| <= MAX_COLUMNS
    ensures Scan(env, FieldsText(fs) + tail, s) == Scan(env, tail, PassedAll(s, fs))
    decreases |fs|
  {
    hide Scan, ValidCell, FieldText, Feeds;
    var f := fs[0];
    if |fs| == 1 {
      FieldRead(env, f, tail, s);
    } else {
      var more := FieldsText(fs[1..]) + tail;
      assert FieldsText(fs) + tail == FieldText(f) + ("," + more);
      FieldRead(env, f, "," + more, s);
      CommaRead(env, more, Passed(s, f));
      FieldsRead(env, fs[1..], tail, NextField(s, f));
    }
  }

  /** The fields of a line are the cells of its record. */
  lemma {:induction false} FieldsAreCells(env: Environment, fs: seq<Field>, s: State)
    requires fs != [] && (forall i :: 0 <= i < |fs| ==> Writable(env, fs[i]))
    requires s.mode == FieldStart && s.cell == "" && |s.cells| + |fs| <= MAX_COLUMNS
    ensures var p := PassedAll(s, fs);
            && p.mode != Quoted && |p.cells| < MAX_COLUMNS && ValidCell(env, p.cell)
            && p.cells + [p.cell] == s.cells + Texts(fs)
    decreases |fs|
  {
    var f := fs[0];
    assert Texts(fs) == [f.text] + Texts(fs[1..]) && Texts([]) == [];
    hide Writable, Passed, ValidCell, Texts;
    WritableIsValid(env, f);
    PassedIs(s, f);
    if |fs| == 1 {
      assert fs[1..] == [];
    } else {
      FieldsAreCells(env, fs[1..], NextField(s, f));
      assert s.cells + [f.text] + Texts(fs[1..]) == s.cells + Texts(fs);
    }
  }

  lemma WritableIsValid(env: Environment, f: Field)
    requires Writable(env, f)
    ensures ValidCell(env, f.text)
  {
  }

  lemma PassedIs(s: State, f: Field)
    requires s.mode == FieldStart && s.cell == ""
    ensures var p := Passed(s, f); p.cell == f.text && p.cells == s.cells && p.mode != Quoted
  {
  }

  lemma {:induction false} FieldsAreLines(env: Environment, fs: seq<Field>, s: State)
    requires fs != [] && (forall i :: 0 <= i < |fs| ==> Writable(env, fs[i]))
    ensures var p := PassedAll(s, fs);
            p.line == s.line + Feeds(FieldsText(fs)) && (FieldsText(fs) != "" || s.seen ==> p.seen)
    decreases |fs|
  {
    hide Writable, FieldText, Feeds;
    var f := fs[0];
    PassedLine(env, s, f);
    PlainText(f);
    if |fs| > 1 {
      FieldsAreLines(env, fs[1..], NextField(s, f));
      CommaFeeds(FieldText(f), FieldsText(fs[1..]));
    }
  }

  lemma PlainText(f: Field)
    ensures !f.quoted ==> FieldText(f) == f.text
  {
  }

  lemma CommaFeeds(a: string, b: string)
    ensures Feeds(a + "," + b) == Feeds(a) + Feeds(b)
  {
    FeedsOfBoth(a + ",", b);
    FeedsOfBoth(a, ",");
    FeedsOfChar(',');
    hide Feeds;
  }

  // ---------- Whole inputs ----------

  /** Every record with the line it starts on, and how the input ends. */
  function ReadAll(env: Environment, input: string, line: int): (seq<(seq<string>, int)>, Outcome)
    decreases |input|
  {
    var r := NextRecord(env, input, line);
    if r.Record? && |r.rest| < |input| then
      var (records, end) := ReadAll(env, r.rest, r.line);
      ([(r.cells, line)] + records, end)
    else ([], r)
  }

  function Written(ls: seq<Line>): string
    requires forall i :: 0 <= i < |ls| ==> ls[i].fields != []
  {
    if ls == [] then "" else LineText(ls[0]) + Written(ls[1..])
  }

  /** The records as written, each with its start line: one more than the line feeds before. */
  function Records(ls: seq<Line>, line: int): seq<(seq<string>, int)>
    requires forall i :: 0 <= i < |ls| ==> ls[i].fields != []
  {
    if ls == [] then [] else [(Texts(ls[0].fields), line)] + Records(ls[1..], line + Feeds(LineText(ls[0])))
  }

  lemma LineRead(env: Environment, l: Line, rest: string, line: int)
    requires Readable(env) && WritableLine(env, l)
    ensures NextRecord(env, LineText(l) + rest, line) == Record(Texts(l.fields), rest, line + Feeds(LineText(l)))
  {
    hide Scan, Feeds, FieldsText, Texts, PassedAll, ValidCell;
    var tail := Ending(l.crlf) + rest;
    FieldsRead(env, l.fields, tail, Start(line));
    FieldsAreCells(env, l.fields, Start(line));
    FieldsAreLines(env, l.fields, Start(line));
    EndingRead(env, l.crlf, rest, PassedAll(Start(line), l.fields));
    assert LineText(l) + rest == FieldsText(l.fields) + tail;
    assert [] + Texts(l.fields) == Texts(l.fields);
    FeedsOfBoth(FieldsText(l.fields), Ending(l.crlf));
    EndingFeeds(l.crlf);
  }

  /** The last record needs no line end, unless it would not be there at all. */
  lemma LastRead(env: Environment, fs: seq<Field>, line: int)
    requires Readable(env) && WritableLine(env, Line(fs, false)) && FieldsText(fs) != ""
    ensures NextRecord(env, FieldsText(fs), line) == Record(Texts(fs), "", line + Feeds(FieldsText(fs)))
  {
    hide Feeds, FieldsText, Texts, PassedAll, ValidCell;
    FieldsRead(env, fs, "", Start(line));
    FieldsAreCells(env, fs, Start(line));
    FieldsAreLines(env, fs, Start(line));
    assert FieldsText(fs) + "" == FieldsText(fs);
    assert [] + Texts(fs) == Texts(fs);
  }

  lemma EndingFeeds(crlf: bool)
    ensures Feeds(Ending(crlf)) == 1
  {
    assert "\r\n"[1..] == "\n" && "\n"[1..] == "";
  }

  /** Reading back any list of records, quoted as RFC 4180 asks or more, blank ones included,
      with either line end, gives exactly those records, on the right lines, and then the end. */
  lemma {:induction false} RoundTrip(env: Environment, ls: seq<Line>, line: int)
    requires Readable(env) && AllWritable(env, ls)
    ensures ReadAll(env, Written(ls), line) == (Records(ls, line), EndOfFile)
    decreases |ls|
  {
    if ls != [] {
      hide NextRecord, Feeds, Texts;
      var l, rest := ls[0], Written(ls[1..]);
      LineRead(env, l, rest, line);
      RoundTrip(env, ls[1..], line + Feeds(LineText(l)));
    }
  }

  /** The start line of a record in closed form. */
  lemma {:induction false} StartLine(ls: seq<Line>, line: int, k: nat)
    requires (forall i :: 0 <= i < |ls| ==> ls[i].fields != []) && k < |ls|
    ensures |Records(ls, line)| == |ls|
    ensures Records(ls, line)[k] == (Texts(ls[k].fields), line + Feeds(Written(ls[..k])))
    decreases |ls|
  {
    hide Feeds, LineText;
    if k == 0 {
      assert ls[..0] == [];
      RecordCount(ls, line);
      assert Feeds("") == 0 by { NoFeeds(); }
    } else {
      StartLine(ls[1..], line + Feeds(LineText(ls[0])), k - 1);
      assert ls[..k][1..] == ls[1..][..k - 1];
      FeedsOfBoth(LineText(ls[0]), Written(ls[..k][1..]));
    }
  }

  lemma NoFeeds()
    ensures Feeds("") == 0
  {
  }

  lemma {:induction false} RecordCount(ls: seq<Line>, line: int)
    requires forall i :: 0 <= i < |ls| ==> ls[i].fields != []
    ensures |Records(ls, line)| == |ls|
    decreases |ls|
  {
    hide Feeds, LineText;
    if ls != [] { RecordCount(ls[1..], line + Feeds(LineText(ls[0]))); }
  }
}
