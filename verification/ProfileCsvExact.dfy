/** Which inputs the CSV reader accepts: a record is read exactly when the input starts with the
    text of a line of fields, quoted as section 2 of RFC 4180 demands. */
module ProfileCsvExact {

  import opened ProfileCsv
  import opened ProfileCsvText

  /** The fields behind the first one, each with its comma. */
  function Joined(fs: seq<Field>): string {
    if fs == [] then "" else "," + FieldText(fs[0]) + Joined(fs[1..])
  }

  /** The text that completes the field under way, where t is still to be added to its cell. */
  predicate Completes(mode: Mode, t: string, tail: string) {
    match mode
    case FieldStart => tail == "\"" + Escape(t) + "\"" || (AllPlain(t) && tail == t)
    case Unquoted => AllPlain(t) && tail == t
    case Quoted => tail == Escape(t) + "\""
    case AfterQuote => (t == "" && tail == "") || (t != "" && t[0] == '"' && tail == "\"" + Escape(t[1..]) + "\"")
  }

  predicate IsEnding(end: string, rest: string) {
    end == "\n" || end == "\r\n" || (end == "" && rest == "")
  }

  /** What is left of a record: the rest of a field, more fields, an ending. */
  datatype Shape = Shape(t: string, tail: string, more: seq<Field>, end: string)

  function Text(h: Shape): string {
    h.tail + Joined(h.more) + h.end
  }

  ghost predicate Fits(env: Environment, input: string, s: State, r: Outcome, h: Shape)
    requires r.Record?
  {
    && input == Text(h) + r.rest && IsEnding(h.end, r.rest) && Completes(s.mode, h.t, h.tail)
    && r.cells == s.cells + [s.cell + h.t] + Texts(h.more)
    && |s.cell + h.t| <= MAX_CELL_BYTES && ValidCell(env, s.cell + h.t)
    && |s.cells| + 1 + |h.more| <= MAX_COLUMNS && (forall i :: 0 <= i < |h.more| ==> Writable(env, h.more[i]))
    && (Text(h) == "" ==> s.seen)
  }

  /** A scan under way: nothing of a field that has not begun, and nothing too long. */
  predicate Begun(s: State) {
    (s.mode == FieldStart ==> s.cell == "") && |s.cell| <= MAX_CELL_BYTES && |s.cells| <= MAX_COLUMNS
  }

  // ---------- One byte back ----------

  lemma Regroup(a: string, b: string, c: string)
    ensures a + b + c == a + (b + c)
  {
  }

  lemma EscapeFirst(b: char, t: string)
    ensures Escape([b] + t) == (if b == '"' then "\"\"" else [b]) + Escape(t)
  {
    assert ([b] + t)[1..] == t;
  }

  /** The byte b takes the mode to next and adds the given text to the cell. */
  predicate Steps(mode: Mode, b: char, next: Mode, added: string) {
    || (mode == Quoted && b == '"' && next == AfterQuote && added == "")
    || (mode == Quoted && b != '"' && next == Quoted && added == [b])
    || (mode == AfterQuote && b == '"' && next == Quoted && added == [b])
    || (mode == FieldStart && b == '"' && next == Quoted && added == "")
    || ((mode == FieldStart || mode == Unquoted) && Plain(b) && next == Unquoted && added == [b])
  }

  lemma QuoteBack(t: string, tail: string)
    requires Completes(AfterQuote, t, tail)
    ensures Completes(Quoted, t, "\"" + tail)
  {
    if t == "" {
      assert "\"" + tail == Escape(t) + "\"";
    } else {
      assert t == ['"'] + t[1..];
      EscapeFirst('"', t[1..]);
      hide Escape;
      assert "\"" + ("\"" + Escape(t[1..]) + "\"") == "\"\"" + Escape(t[1..]) + "\"";
    }
  }

  /** The shape before a byte that belongs to the field under way. */
  lemma ByteBack(mode: Mode, b: char, next: Mode, added: string, t: string, tail: string)
    requires Completes(next, t, tail) && Steps(mode, b, next, added)
    ensures Completes(mode, added + t, [b] + tail)
  {
    hide Escape;
    if mode == Quoted && b == '"' {
      QuoteBack(t, tail);
      assert "" + t == t;
    } else if mode == Quoted {
      EscapeFirst(b, t);
      Regroup([b], Escape(t), "\"");
    } else if mode == AfterQuote {
      assert ([b] + t)[1..] == t;
      Regroup("\"", Escape(t), "\"");
    } else if b == '"' {
      assert "" + t == t;
      Regroup("\"", Escape(t), "\"");
    }
  }

  predicate Divides(env: Environment, s: State, n: State) {
    && s.mode != Quoted && |s.cells| < MAX_COLUMNS && ValidCell(env, s.cell)
    && n == State(FieldStart, s.cells + [s.cell], "", s.seen, s.line)
  }

  /** What a byte can do to a scan that goes on. */
  lemma AfterCases(env: Environment, s: State, b: char)
    requires Begun(s) && After(env, s, b).Some?
    ensures var n := After(env, s, b).value;
            || (b == ',' && Divides(env, s, n))
            || (exists added :: Steps(s.mode, b, n.mode, added) && n == s.(mode := n.mode, cell := s.cell + added))
  {
    hide ValidCell;
    var n := After(env, s, b).value;
    if !(b == ',' && s.mode != Quoted) {
      var added := if n.cell == s.cell then "" else [b];
      assert s.cell + "" == s.cell;
      assert Steps(s.mode, b, n.mode, added);
    }
  }

  // ---------- A whole record back ----------

  lemma ComesLast(env: Environment, s: State, r: Outcome, end: string)
    requires Ends(env, s, r) && Begun(s) && IsEnding(end, r.rest) && (end == "" ==> s.seen)
    ensures Fits(env, end + r.rest, s, r, Shape("", "", [], end))
  {
    hide ValidCell;
    assert s.cell + "" == s.cell;
    assert r.cells == s.cells + [s.cell] + Texts([]);
    assert Text(Shape("", "", [], end)) == end;
  }

  lemma ByteBefore(env: Environment, b: char, rest: string, s: State, n: State, added: string, r: Outcome, h: Shape)
    requires Begun(s) && Steps(s.mode, b, n.mode, added)
    requires n == s.(mode := n.mode, cell := s.cell + added, seen := true, line := n.line)
    requires r.Record? && Fits(env, rest, n, r, h)
    ensures Fits(env, [b] + rest, s, r, h.(t := added + h.t, tail := [b] + h.tail))
  {
    hide ValidCell, Completes, Texts, Steps, Text, Writable, IsEnding;
    ByteBack(s.mode, b, n.mode, added, h.t, h.tail);
    Regroup(s.cell, added, h.t);
    TextBefore(h, b, added);
    Regroup([b], Text(h), r.rest);
  }

  lemma TextBefore(h: Shape, b: char, added: string)
    ensures Text(h.(t := added + h.t, tail := [b] + h.tail)) == [b] + Text(h)
  {
    hide Joined;
    assert [b] + h.tail + Joined(h.more) + h.end == [b] + (h.tail + Joined(h.more) + h.end);
  }

  /** The field whose text is h.tail. */
  function FirstField(h: Shape): Field {
    Field(h.t, h.tail == "\"" + Escape(h.t) + "\"")
  }

  lemma FirstIsField(env: Environment, h: Shape)
    requires Completes(FieldStart, h.t, h.tail) && |h.t| <= MAX_CELL_BYTES && ValidCell(env, h.t)
    ensures FieldText(FirstField(h)) == h.tail && Writable(env, FirstField(h))
  {
  }

  lemma CommaBefore(env: Environment, rest: string, s: State, n: State, r: Outcome, h: Shape)
    requires Begun(s) && Divides(env, s.(seen := true, line := n.line), n)
    requires r.Record? && Fits(env, rest, n, r, h)
    ensures Fits(env, "," + rest, s, r, Shape("", "", [FirstField(h)] + h.more, h.end))
  {
    hide ValidCell, Completes, Texts, Text, FieldText, FirstField, IsEnding;
    var f, more := FirstField(h), [FirstField(h)] + h.more;
    assert "" + h.t == h.t && s.cell + "" == s.cell;
    FirstIsField(env, h);
    CommaText(h, f);
    Regroup(",", Text(h), r.rest);
    NothingLeft(s.mode);
    FirstText(f, h.more);
    FirstIs(h);
    assert s.cells + [s.cell] + [h.t] + Texts(h.more) == s.cells + [s.cell] + ([h.t] + Texts(h.more));
    hide Writable;
  }

  lemma FirstIs(h: Shape)
    ensures FirstField(h).text == h.t
  {
  }

  lemma FirstText(f: Field, more: seq<Field>)
    ensures Texts([f] + more) == [f.text] + Texts(more)
  {
    assert ([f] + more)[1..] == more;
  }

  lemma NothingLeft(mode: Mode)
    requires mode != Quoted
    ensures Completes(mode, "", "")
  {
  }

  lemma CommaText(h: Shape, f: Field)
    requires FieldText(f) == h.tail
    ensures Text(Shape("", "", [f] + h.more, h.end)) == "," + Text(h)
  {
    hide FieldText;
    assert ([f] + h.more)[1..] == h.more;
    assert "" + ("," + h.tail + Joined(h.more)) + h.end == "," + (h.tail + Joined(h.more) + h.end);
  }

  /** For every input: what was read of a record is the rest of the field under way, more fields
      written as RFC 4180 asks, and an ending. */
  lemma {:induction false} RecordShape(env: Environment, input: string, s: State) returns (h: Shape)
    requires Begun(s) && Scan(env, input, s).Record?
    ensures Fits(env, input, s, Scan(env, input, s), h)
    decreases |input|
  {
    var r := Scan(env, input, s);
    if input == "" {
      assert Ends(env, s, r) && r.rest == "" && s.seen;
      ComesLast(env, s, r, "");
      return Shape("", "", [], "");
    }
    var b, rest := input[0], input[1..];
    assert input == [b] + rest;
    ScanMoves(env, input, s);
    var next := After(env, Seen(s, b), b);
    AfterKeepsLine(env, Seen(s, b), b);
    assert next.Some? ==> r == Scan(env, rest, next.value);
    hide Scan, After, Fits, Completes, ValidCell, Ends;
    if next.None? {
      h := Shape("", "", [], if b == '\n' then "\n" else "\r\n");
      ComesLast(env, s, r, h.end);
      assert input == h.end + r.rest;
    } else {
      var n := next.value;
      AfterCases(env, Seen(s, b), b);
      h := RecordShape(env, rest, n);
      if b == ',' && Divides(env, Seen(s, b), n) {
        CommaBefore(env, rest, s, n, r, h);
        h := Shape("", "", [FirstField(h)] + h.more, h.end);
      } else {
        var added :| Steps(s.mode, b, n.mode, added) && n == Seen(s, b).(mode := n.mode, cell := s.cell + added);
        ByteBefore(env, b, rest, s, n, added, r, h);
        h := h.(t := added + h.t, tail := [b] + h.tail);
      }
    }
  }

  // ---------- Exactly these inputs ----------

  /** The fields of a record the reader has room for. */
  predicate WritableFields(env: Environment, fs: seq<Field>) {
    1 <= |fs| <= MAX_COLUMNS && forall i :: 0 <= i < |fs| ==> Writable(env, fs[i])
  }

  /** The input starts with these fields and this ending; only the last line may lack its line end,
      and it is not blank then. */
  predicate Starts(env: Environment, input: string, fs: seq<Field>, end: string, rest: string) {
    WritableFields(env, fs) && IsEnding(end, rest) && input == FieldsText(fs) + end + rest && input != ""
  }

  lemma {:induction false} JoinedText(f: Field, more: seq<Field>)
    ensures FieldsText([f] + more) == FieldText(f) + Joined(more)
    decreases |more|
  {
    hide FieldText;
    assert ([f] + more)[1..] == more;
    if more != [] {
      JoinedText(more[0], more[1..]);
      assert [more[0]] + more[1..] == more;
      assert FieldText(f) + "," + FieldsText(more) == FieldText(f) + ("," + FieldsText(more));
      Regroup(",", FieldText(more[0]), Joined(more[1..]));
    }
  }

  lemma ReadStarts(env: Environment, input: string, line: int) returns (fs: seq<Field>, end: string)
    requires NextRecord(env, input, line).Record?
    ensures var r := NextRecord(env, input, line);
            Starts(env, input, fs, end, r.rest) && r == Record(Texts(fs), r.rest, line + Feeds(FieldsText(fs) + end))
  {
    var h := RecordShape(env, input, Start(line));
    var r := Scan(env, input, Start(line));
    LinesCounted(env, input, Start(line));
    hide Scan, Completes, ValidCell, FieldsText, Feeds, Joined, Texts, Writable;
    var f := FirstField(h);
    assert "" + h.t == h.t;
    FirstIsField(env, h);
    JoinedText(f, h.more);
    FirstText(f, h.more);
    fs, end := [f] + h.more, h.end;
    assert [] + [h.t] + Texts(h.more) == [h.t] + Texts(h.more);
    assert FieldsText(fs) + end == Text(h);
    assert input[..|input| - |r.rest|] == Text(h);
  }

  lemma StartsRead(env: Environment, input: string, line: int, fs: seq<Field>, end: string, rest: string)
    requires Readable(env) && Starts(env, input, fs, end, rest)
    ensures NextRecord(env, input, line) == Record(Texts(fs), rest, line + Feeds(FieldsText(fs) + end))
  {
    hide NextRecord, FieldsText, Texts, Feeds, Writable;
    if end == "" {
      assert FieldsText(fs) + "" + "" == FieldsText(fs) == FieldsText(fs) + "";
      LastRead(env, fs, line);
    } else {
      var l := Line(fs, end == "\r\n");
      assert LineText(l) == FieldsText(fs) + end;
      LineRead(env, l, rest, line);
    }
  }

  /** A record is read exactly from the inputs that start with the text of its fields, quoted as
      RFC 4180 asks, and a line end; what remains, and the line reached, are what follows that text
      and the line feeds in it. */
  lemma ReadsExactly(env: Environment, input: string, line: int, cells: seq<string>, rest: string, next: int)
    requires Readable(env)
    ensures NextRecord(env, input, line) == Record(cells, rest, next)
       <==> exists fs, end :: && Starts(env, input, fs, end, rest) && Texts(fs) == cells
                              && next == line + Feeds(FieldsText(fs) + end)
  {
    hide NextRecord, FieldsText, Texts, Feeds, IsEnding;
    if NextRecord(env, input, line) == Record(cells, rest, next) {
      var fs, end := ReadStarts(env, input, line);
    }
    forall fs, end | Starts(env, input, fs, end, rest)
      ensures NextRecord(env, input, line) == Record(Texts(fs), rest, line + Feeds(FieldsText(fs) + end))
    {
      StartsRead(env, input, line, fs, end, rest);
    }
  }
}
