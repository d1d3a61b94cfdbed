/** The bounded CSV reader of internal/profile/csv.go. Bytes are characters; UTF-8 validity and
    how far the buffered reader has read ahead are given from outside. */
module ProfileCsv {

  import opened Prelude

  const MAX_COLUMNS := 64
  const MAX_CELL_BYTES := 4096

  datatype CsvError = InputSizeLimit | InputReadFailed | CsvSyntax | CellSizeLimit | ColumnLimit | InvalidUtf8

  datatype Outcome =
    | Record(cells: seq<string>, rest: string, line: int)
    | EndOfFile
    | Failed(error: CsvError)

  datatype Mode = FieldStart | Unquoted | Quoted | AfterQuote

  datatype State = State(mode: Mode, cells: seq<string>, cell: string, seen: bool, line: int)

  /** utf8 tells valid UTF-8. By the number of bytes not yet consumed, over tells whether the reader
      has by then fetched more than the input limit, and fails whether reading on fails. */
  datatype Environment = Environment(utf8: string -> bool, over: nat -> bool, fails: nat -> bool)

  // ---------- The automaton ----------

  predicate ValidCell(env: Environment, cell: string) {
    env.utf8(cell) && '\0' !in cell
  }

  /** The cell is complete. */
  function FinishCell(env: Environment, s: State): Result<State, CsvError> {
    if |s.cells| == MAX_COLUMNS then Err(ColumnLimit)
    else if !ValidCell(env, s.cell) then Err(InvalidUtf8)
    else Ok(s.(cells := s.cells + [s.cell], cell := "", mode := FieldStart))
  }

  function FinishRecord(env: Environment, s: State, rest: string): Outcome {
    var r := FinishCell(env, s);
    if r.Err? then Failed(r.error) else Record(r.value.cells, rest, s.line)
  }

  /** Reading on fails with n bytes left. */
  function ReadFailure(env: Environment, n: nat): CsvError {
    if env.over(n) then InputSizeLimit else InputReadFailed
  }

  predicate Full(s: State) {
    |s.cell| == MAX_CELL_BYTES
  }

  function AppendByte(s: State, b: char, mode: Mode): State {
    s.(cell := s.cell + [b], mode := mode)
  }

  function Scan(env: Environment, input: string, s: State): (r: Outcome)
    ensures r.Record? ==> |r.rest| <= |input| && (input != "" ==> |r.rest| < |input|)
    decreases |input|
  {
    if env.fails(|input|) then Failed(ReadFailure(env, |input|))
    else if input == "" then
      if env.over(0) then Failed(InputSizeLimit)
      else if s.mode == Quoted then Failed(CsvSyntax)
      else if !s.seen then EndOfFile
      else FinishRecord(env, s, "")
    else
      var b, rest := input[0], input[1..];
      if env.over(|rest|) then Failed(InputSizeLimit)
      else
        var s := s.(seen := true, line := s.line + if b == '\n' then 1 else 0);
        if s.mode == Quoted then
          if b == '"' then Scan(env, rest, s.(mode := AfterQuote))
          else if Full(s) then Failed(CellSizeLimit)
          else Scan(env, rest, AppendByte(s, b, Quoted))
        else if s.mode == AfterQuote && b == '"' then
          if Full(s) then Failed(CellSizeLimit) else Scan(env, rest, AppendByte(s, b, Quoted))
        else if b == ',' then
          var r := FinishCell(env, s);
          if r.Err? then Failed(r.error) else Scan(env, rest, r.value)
        else if b == '\n' then FinishRecord(env, s, rest)
        else if b == '\r' then
          if env.fails(|rest|) then Failed(ReadFailure(env, |rest|))
          else if rest == "" then Failed(if env.over(0) then InputSizeLimit else CsvSyntax)
          else if env.over(|rest| - 1) then Failed(InputSizeLimit)
          else if rest[0] != '\n' then Failed(CsvSyntax)
          else FinishRecord(env, s.(line := s.line + 1), rest[1..])
        else if s.mode == AfterQuote || (b == '"' && s.mode != FieldStart) then Failed(CsvSyntax)
        else if b == '"' then Scan(env, rest, s.(mode := Quoted))
        else if Full(s) then Failed(CellSizeLimit)
        else Scan(env, rest, AppendByte(s, b, Unquoted))
  }

  function Start(line: int): State {
    State(FieldStart, [], "", false, line)
  }

  function NextRecord(env: Environment, input: string, line: int): Outcome {
    Scan(env, input, Start(line))
  }

  // ---------- The reader object ----------

  class CsvInput {
    const env: Environment
    var input: string
    var line: int

    constructor (env: Environment, input: string)
      ensures this.env == env && this.input == input && line == 1
    {
      this.env := env;
      this.input := input;
      line := 1;
    }

    /** A record with the line it starts on, the end of the file, or a failure. */
    method ReadRecord() returns (outcome: Outcome, startLine: int)
      modifies this
      ensures outcome == NextRecord(env, old(input), old(line)) && startLine == old(line)
      ensures outcome.Record? ==> input == outcome.rest && line == outcome.line
    {
      startLine := line;
      var mode, cells, cell, seen := FieldStart, [], "", false;
      ghost var goal := NextRecord(env, input, line);
      while true
        invariant goal == Scan(env, input, State(mode, cells, cell, seen, line))
        decreases |input|
      {
        if env.fails(|input|) { return Failed(ReadFailure(env, |input|)), startLine; }
        if input == "" {
          if env.over(0) { return Failed(InputSizeLimit), startLine; }
          if mode == Quoted { return Failed(CsvSyntax), startLine; }
          if !seen { return EndOfFile, startLine; }
          outcome := FinishRecord(env, State(mode, cells, cell, seen, line), "");
          return;
        }
        var b := input[0];
        input := input[1..];
        if env.over(|input|) { return Failed(InputSizeLimit), startLine; }
        seen := true;
        if b == '\n' { line := line + 1; }
        if mode == Quoted {
          if b == '"' {
            mode := AfterQuote;
          } else {
            if |cell| == MAX_CELL_BYTES { return Failed(CellSizeLimit), startLine; }
            cell := cell + [b];
          }
          continue;
        }
        if mode == AfterQuote && b == '"' {
          if |cell| == MAX_CELL_BYTES { return Failed(CellSizeLimit), startLine; }
          cell := cell + [b];
          mode := Quoted;
          continue;
        }
        if b == ',' {
          var finished := FinishCell(env, State(mode, cells, cell, seen, line));
          if finished.Err? { return Failed(finished.error), startLine; }
          cells, cell, mode := finished.value.cells, "", FieldStart;
          continue;
        }
        if b == '\r' || b == '\n' {
          if b == '\r' {
            if env.fails(|input|) { return Failed(ReadFailure(env, |input|)), startLine; }
            if input == "" { return Failed(if env.over(0) then InputSizeLimit else CsvSyntax), startLine; }
            var next := input[0];
            input := input[1..];
            if env.over(|input|) { return Failed(InputSizeLimit), startLine; }
            if next != '\n' { return Failed(CsvSyntax), startLine; }
            line := line + 1;
          }
          outcome := FinishRecord(env, State(mode, cells, cell, seen, line), input);
          return;
        }
        if mode == AfterQuote || (b == '"' && mode != FieldStart) { return Failed(CsvSyntax), startLine; }
        if mode == FieldStart && b == '"' {
          mode := Quoted;
          continue;
        }
        mode := Unquoted;
        if |cell| == MAX_CELL_BYTES { return Failed(CellSizeLimit), startLine; }
        cell := cell + [b];
      }
    }
  }
}
