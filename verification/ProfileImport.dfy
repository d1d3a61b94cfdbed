/** The row loop of the profile import (internal/profile/import.go): cells become metric values,
    rows are numbered, and the rankings are made of them. */
module ProfileImport {

  import opened Prelude
  import opened Decimal
  import opened ProfileDecimal
  import opened ProfileRanking

  const MAX_ROWS := 100_000
  const MAX_CELLS := 1_000_000

  /** A metric and the column it is read from; tokens maps coverage states. */
  datatype MetricMapping = MetricMapping(
    name: string,
    column: nat,
    isCoverage: bool,
    isCount: bool,
    isPercent: bool,
    tokens: map<string, string>)

  /** What stands for a missing value, and whether one is an error. */
  datatype MissingRule = MissingRule(missing: set<string>, rejects: bool)

  datatype Category =
    | RowLimit
    | CellBudget
    | RowWidth
    | MissingValue
    | CoverageToken
    | Number(error: NumberError)
    | PercentageRange

  datatype ImportError = ImportError(category: Category, row: int)

  // ---------- One cell ----------

  ghost predicate Acceptable(raw: string, metric: MetricMapping, rule: MissingRule) {
    if raw in rule.missing then !rule.rejects
    else if metric.isCoverage then raw in metric.tokens
    else
      && IsNumber(raw, metric.isCount) && CountDigits(raw) <= MAX_NUMERIC_DIGITS
      && (NumberIsDecimal(raw, metric.isCount); metric.isPercent ==> RealValue(raw) <= 100.0)
  }

  /** The value of an acceptable cell. */
  function ValueOf(raw: string, metric: MetricMapping, rule: MissingRule): Option<string> {
    if raw in rule.missing then None
    else if metric.isCoverage then (if raw in metric.tokens then Some(metric.tokens[raw]) else None)
    else Some(raw)
  }

  lemma Hundred()
    ensures IsDecimal("100") && RealValue("100") == 100.0
  {
    CutJoined("100", "");
    assert "100"[..2] == "10" && "10"[..1] == "1" && "1"[..0] == "";
    assert Value("1") == 1 && Value("10") == 10 && Value("100") == 100;
  }

  method MetricValue(raw: string, metric: MetricMapping, rule: MissingRule)
    returns (r: Result<Option<string>, Category>)
    ensures r.Ok? <==> Acceptable(raw, metric, rule)
    ensures r.Ok? ==> r.value == ValueOf(raw, metric, rule)
    ensures r == Err(MissingValue) <==> raw in rule.missing && rule.rejects
    ensures r == Err(CoverageToken) <==> raw !in rule.missing && metric.isCoverage && raw !in metric.tokens
    ensures r == Err(Number(NumericPrecisionLimit)) <==>
            raw !in rule.missing && !metric.isCoverage && Overlong(raw, metric.isCount)
  {
    if raw in rule.missing {
      return if rule.rejects then Err(MissingValue) else Ok(None);
    }
    if metric.isCoverage {
      return if raw in metric.tokens then Ok(Some(metric.tokens[raw])) else Err(CoverageToken);
    }
    var valid := ValidateNumber(raw, metric.isCount);
    if valid.Err? { return Err(Number(valid.error)); }
    NumberIsDecimal(raw, metric.isCount);
    if metric.isPercent {
      var c := CompareDecimal(raw, "100");
      Hundred();
      CompareExact(raw, "100");
      if c > 0 { return Err(PercentageRange); }
    }
    return Ok(Some(raw));
  }

  // ---------- One row ----------

  predicate Mapped(metrics: seq<MetricMapping>, width: nat) {
    && (forall i :: 0 <= i < |metrics| ==> metrics[i].column < width)
    && (forall i, j :: 0 <= i < j < |metrics| ==> metrics[i].name != metrics[j].name)
  }

  /** The row holds exactly the values of its cells. */
  predicate RowOf(row: Row, cells: seq<string>, metrics: seq<MetricMapping>, rule: MissingRule) {
    forall i :: 0 <= i < |metrics| && metrics[i].column < |cells| ==>
                  && metrics[i].name in row.values
                  && row.values[metrics[i].name] == ValueOf(cells[metrics[i].column], metrics[i], rule)
  }

  ghost predicate AcceptableRow(cells: seq<string>, metrics: seq<MetricMapping>, rule: MissingRule, width: nat)
    requires Mapped(metrics, width)
  {
    && |cells| == width
    && forall i :: 0 <= i < |metrics| ==> Acceptable(cells[metrics[i].column], metrics[i], rule)
  }

  method ReadRow(cells: seq<string>, metrics: seq<MetricMapping>, rule: MissingRule, width: nat, rowIndex: int)
    returns (r: Result<Row, Category>)
    requires Mapped(metrics, width)
    ensures r.Ok? <==> AcceptableRow(cells, metrics, rule, width)
    ensures r.Ok? ==> r.value.rowIndex == rowIndex && RowOf(r.value, cells, metrics, rule)
  {
    hide Acceptable, ValueOf;
    if |cells| != width { return Err(RowWidth); }
    var values: map<string, Option<string>> := map[];
    for n := 0 to |metrics|
      invariant forall i :: 0 <= i < n ==> Acceptable(cells[metrics[i].column], metrics[i], rule)
      invariant RowOf(Row(rowIndex, values), cells, metrics[..n], rule)
    {
      var value := MetricValue(cells[metrics[n].column], metrics[n], rule);
      if value.Err? { return Err(value.error); }
      values := values[metrics[n].name := value.value];
    }
    assert metrics[..|metrics|] == metrics;
    return Ok(Row(rowIndex, values));
  }

  // ---------- All rows ----------

  ghost predicate AcceptableRows(records: seq<seq<string>>, metrics: seq<MetricMapping>, rule: MissingRule, width: nat)
    requires Mapped(metrics, width) && width > 0
  {
    && |records| <= MAX_ROWS && |records| <= MAX_CELLS / width
    && forall i :: 0 <= i < |records| ==> AcceptableRow(records[i], metrics, rule, width)
  }

  /** One row per record, numbered from one, with the values of its cells; or the first record that
      does not fit. */
  method ReadRows(records: seq<seq<string>>, metrics: seq<MetricMapping>, rule: MissingRule, width: nat)
    returns (r: Result<seq<Row>, ImportError>)
    requires Mapped(metrics, width) && width > 0
    ensures r.Ok? <==> AcceptableRows(records, metrics, rule, width)
    ensures r.Ok? ==> |r.value| == |records| && Numbered(r.value)
    ensures r.Ok? ==> forall i :: 0 <= i < |records| ==> RowOf(r.value[i], records[i], metrics, rule)
    ensures r.Err? ==> && 1 <= r.error.row <= |records|
                       && AcceptableRows(records[..r.error.row - 1], metrics, rule, width)
                       && !AcceptableRows(records[..r.error.row], metrics, rule, width)
  {
    hide AcceptableRow, RowOf;
    var rows: seq<Row> := [];
    for n := 0 to |records|
      invariant |rows| == n <= MAX_ROWS && n <= MAX_CELLS / width && Numbered(rows)
      invariant forall i :: 0 <= i < n ==> AcceptableRow(records[i], metrics, rule, width)
      invariant forall i :: 0 <= i < n ==> RowOf(rows[i], records[i], metrics, rule)
    {
      var rowIndex := |rows| + 1;
      if rowIndex > MAX_ROWS { return Err(ImportError(RowLimit, rowIndex)); }
      if rowIndex > MAX_CELLS / width { return Err(ImportError(CellBudget, rowIndex)); }
      assert records[..rowIndex][n] == records[n];
      var row := ReadRow(records[n], metrics, rule, width, rowIndex);
      if row.Err? { return Err(ImportError(row.error, rowIndex)); }
      rows := rows + [row.value];
    }
    return Ok(rows);
  }

  /** What the rankings need: the present values of a metric that is not a coverage state are
      decimals, because every cell passed as a number. */
  lemma RowsAreDecimals(records: seq<seq<string>>, metrics: seq<MetricMapping>, rule: MissingRule, width: nat,
                        rows: seq<Row>, k: nat)
    requires Mapped(metrics, width) && width > 0 && AcceptableRows(records, metrics, rule, width)
    requires |rows| == |records| && forall i :: 0 <= i < |records| ==> RowOf(rows[i], records[i], metrics, rule)
    requires k < |metrics| && !metrics[k].isCoverage
    ensures Decimals(rows, metrics[k].name)
  {
    hide IsDecimal, IsNumber, CountDigits, RealValue;
    var m := metrics[k];
    forall i | 0 <= i < |rows| && HasValue(rows[i], m.name) ensures IsDecimal(rows[i].values[m.name].value) {
      var raw := records[i][m.column];
      assert AcceptableRow(records[i], metrics, rule, width);
      assert Acceptable(raw, m, rule);
      NumberIsDecimal(raw, m.isCount);
    }
  }

  function Ranked(metrics: seq<MetricMapping>): (ms: seq<Metric>)
    ensures |ms| == |metrics|
    ensures forall i :: 0 <= i < |ms| ==> ms[i] == Metric(metrics[i].name, metrics[i].isCoverage)
  {
    seq(|metrics|, i requires 0 <= i < |metrics| => Metric(metrics[i].name, metrics[i].isCoverage))
  }

  /** From records to rankings: every record becomes a row, and every metric that is not a coverage
      state is ranked. */
  method ImportRanked(records: seq<seq<string>>, metrics: seq<MetricMapping>, rule: MissingRule, width: nat)
    returns (r: Result<(seq<Row>, seq<Ranking>), ImportError>)
    requires Mapped(metrics, width) && width > 0
    ensures r.Ok? <==> AcceptableRows(records, metrics, rule, width)
    ensures r.Ok? ==> var (rows, rankings) := r.value;
                      var ms := RankedMetrics(Ranked(metrics));
                      && |rows| == |records| && |rankings| == |ms|
                      && (forall i :: 0 <= i < |records| ==> RowOf(rows[i], records[i], metrics, rule))
                      && (forall k :: 0 <= k < |ms| ==>
                                        Decimals(rows, ms[k].name) && IsRanking(rows, ms[k].name, rankings[k]))
  {
    hide AcceptableRows, RowOf, IsRanking, Decimals, RankedMetrics;
    var rows := ReadRows(records, metrics, rule, width);
    if rows.Err? { return Err(rows.error); }
    forall k | 0 <= k < |metrics| && !metrics[k].isCoverage ensures Decimals(rows.value, metrics[k].name) {
      RowsAreDecimals(records, metrics, rule, width, rows.value, k);
    }
    var rankings := RankRows(rows.value, Ranked(metrics));
    return Ok((rows.value, rankings));
  }
}
