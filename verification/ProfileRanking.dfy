/** The rankings of an imported profile (rankRows of internal/profile/import.go). */
module ProfileRanking {

  import opened Prelude
  import opened Decimal
  import opened ProfileDecimal

  /** A row and its metric values; None is a missing one. */
  datatype Row = Row(rowIndex: int, values: map<string, Option<string>>)

  datatype Metric = Metric(name: string, isCoverage: bool)

  datatype Ranking = Ranking(metric: string, rowIndices: seq<int>, missingRowIndices: seq<int>)

  /** Rows are numbered from one, and the values of a metric are decimals. */
  predicate Numbered(rows: seq<Row>) {
    forall i :: 0 <= i < |rows| ==> rows[i].rowIndex == i + 1
  }

  predicate Decimals(rows: seq<Row>, name: string) {
    forall i :: 0 <= i < |rows| && HasValue(rows[i], name) ==> IsDecimal(rows[i].values[name].value)
  }

  predicate HasValue(row: Row, name: string) {
    name in row.values && row.values[name].Some?
  }

  /** Row i, counted from one, has a value. */
  predicate Present(rows: seq<Row>, name: string, i: int) {
    1 <= i <= |rows| && HasValue(rows[i - 1], name)
  }

  ghost function Key(rows: seq<Row>, name: string, i: int): real
    requires Present(rows, name, i) && Decimals(rows, name)
  {
    RealValue(rows[i - 1].values[name].value)
  }

  /** The greater value first; between equal values, the earlier row. */
  ghost predicate Before(rows: seq<Row>, name: string, i: int, j: int)
    requires Present(rows, name, i) && Present(rows, name, j) && Decimals(rows, name)
  {
    Key(rows, name, i) > Key(rows, name, j) || (Key(rows, name, i) == Key(rows, name, j) && i < j)
  }

  predicate AllPresent(rows: seq<Row>, name: string, xs: seq<int>) {
    forall a :: 0 <= a < |xs| ==> Present(rows, name, xs[a])
  }

  ghost predicate Ordered(rows: seq<Row>, name: string, xs: seq<int>)
    requires AllPresent(rows, name, xs) && Decimals(rows, name)
  {
    forall a, b :: 0 <= a < b < |xs| ==> Before(rows, name, xs[a], xs[b])
  }

  function MissingRows(rows: seq<Row>, name: string): seq<int> {
    if rows == [] then []
    else MissingRows(rows[..|rows| - 1], name) + if HasValue(rows[|rows| - 1], name) then [] else [|rows|]
  }

  /** A ranking parts the rows into the missing ones, in order, and the others, ordered. */
  ghost predicate IsRanking(rows: seq<Row>, name: string, r: Ranking)
    requires Decimals(rows, name)
  {
    && r.metric == name && r.missingRowIndices == MissingRows(rows, name)
    && AllPresent(rows, name, r.rowIndices) && Ordered(rows, name, r.rowIndices)
    && forall i :: Present(rows, name, i) ==> i in r.rowIndices
  }

  // ---------- Sorting ----------

  /** One insertion of a stable sort: x comes from behind all of xs. */
  method Insert(rows: seq<Row>, name: string, xs: seq<int>, x: int) returns (ys: seq<int>)
    requires Decimals(rows, name) && AllPresent(rows, name, xs) && Ordered(rows, name, xs) && Present(rows, name, x)
    requires forall a :: 0 <= a < |xs| ==> xs[a] < x
    ensures AllPresent(rows, name, ys) && Ordered(rows, name, ys)
    ensures forall i :: i in ys <==> i in xs || i == x
  {
    var k := |xs|;
    while k > 0
      invariant 0 <= k <= |xs|
      invariant forall a :: k <= a < |xs| ==> Key(rows, name, x) > Key(rows, name, xs[a])
    {
      var c := CompareDecimal(rows[x - 1].values[name].value, rows[xs[k - 1] - 1].values[name].value);
      CompareExact(rows[x - 1].values[name].value, rows[xs[k - 1] - 1].values[name].value);
      if c <= 0 { break; }
      k := k - 1;
    }
    ys := xs[..k] + [x] + xs[k..];
    InsertedContents(xs, k, x, ys);
    InsertedOrder(rows, name, xs, k, x, ys);
  }

  lemma InsertedContents(xs: seq<int>, k: nat, x: int, ys: seq<int>)
    requires k <= |xs| && ys == xs[..k] + [x] + xs[k..]
    ensures forall i :: i in ys <==> i in xs || i == x
  {
    assert xs == xs[..k] + xs[k..];
  }

  lemma InsertedOrder(rows: seq<Row>, name: string, xs: seq<int>, k: nat, x: int, ys: seq<int>)
    requires Decimals(rows, name) && AllPresent(rows, name, xs) && Ordered(rows, name, xs) && Present(rows, name, x)
    requires k <= |xs| && ys == xs[..k] + [x] + xs[k..] && forall a :: 0 <= a < |xs| ==> xs[a] < x
    requires forall a :: k <= a < |xs| ==> Key(rows, name, x) > Key(rows, name, xs[a])
    requires k > 0 ==> Key(rows, name, xs[k - 1]) >= Key(rows, name, x)
    ensures AllPresent(rows, name, ys) && Ordered(rows, name, ys)
  {
    hide Key, Present, Decimals;
    assert forall a :: 0 <= a < k ==> ys[a] == xs[a];
    assert ys[k] == x;
    assert forall a :: k < a < |ys| ==> ys[a] == xs[a - 1];
    assert forall a :: 0 <= a < k ==> Key(rows, name, xs[a]) >= Key(rows, name, x) by {
      forall a | 0 <= a < k ensures Key(rows, name, xs[a]) >= Key(rows, name, x) {
        assert a < k - 1 ==> Before(rows, name, xs[a], xs[k - 1]);
      }
    }
  }

  method SortStable(rows: seq<Row>, name: string, xs: seq<int>) returns (ys: seq<int>)
    requires Decimals(rows, name) && AllPresent(rows, name, xs)
    requires forall a, b :: 0 <= a < b < |xs| ==> xs[a] < xs[b]
    ensures AllPresent(rows, name, ys) && Ordered(rows, name, ys)
    ensures forall i :: i in ys <==> i in xs
  {
    ys := [];
    for n := 0 to |xs|
      invariant AllPresent(rows, name, ys) && Ordered(rows, name, ys)
      invariant forall i :: i in ys <==> i in xs[..n]
    {
      assert xs[..n + 1] == xs[..n] + [xs[n]];
      assert forall a :: 0 <= a < |ys| ==> ys[a] in ys;
      ys := Insert(rows, name, ys, xs[n]);
    }
    assert xs[..|xs|] == xs;
  }

  method RankMetric(rows: seq<Row>, name: string) returns (r: Ranking)
    requires Numbered(rows) && Decimals(rows, name)
    ensures IsRanking(rows, name, r)
  {
    var present, missing: seq<int> := [], [];
    for n := 0 to |rows|
      invariant missing == MissingRows(rows[..n], name)
      invariant AllPresent(rows, name, present)
      invariant forall i :: i in present <==> i <= n && Present(rows, name, i)
      invariant forall a, b :: 0 <= a < b < |present| ==> present[a] < present[b]
    {
      assert rows[..n + 1][..n] == rows[..n];
      if HasValue(rows[n], name) {
        present := present + [rows[n].rowIndex];
      } else {
        missing := missing + [rows[n].rowIndex];
      }
    }
    assert rows[..|rows|] == rows;
    var ranked := SortStable(rows, name, present);
    return Ranking(name, ranked, missing);
  }

  function RankedMetrics(metrics: seq<Metric>): seq<Metric> {
    if metrics == [] then []
    else
      var last := metrics[|metrics| - 1];
      RankedMetrics(metrics[..|metrics| - 1]) + if last.isCoverage then [] else [last]
  }

  method RankRows(rows: seq<Row>, metrics: seq<Metric>) returns (rankings: seq<Ranking>)
    requires Numbered(rows)
    requires forall i :: 0 <= i < |metrics| && !metrics[i].isCoverage ==> Decimals(rows, metrics[i].name)
    ensures var ms := RankedMetrics(metrics);
            && |rankings| == |ms|
            && forall k :: 0 <= k < |ms| ==> Decimals(rows, ms[k].name) && IsRanking(rows, ms[k].name, rankings[k])
  {
    hide IsRanking, Decimals;
    rankings := [];
    for n := 0 to |metrics|
      invariant |rankings| == |RankedMetrics(metrics[..n])|
      invariant forall k :: 0 <= k < |rankings| ==>
                              var m := RankedMetrics(metrics[..n])[k];
                              Decimals(rows, m.name) && IsRanking(rows, m.name, rankings[k])
    {
      assert metrics[..n + 1][..n] == metrics[..n];
      if metrics[n].isCoverage { continue; }
      var r := RankMetric(rows, metrics[n].name);
      rankings := rankings + [r];
    }
    assert metrics[..|metrics|] == metrics;
  }

  // ---------- What a ranking is ----------

  lemma {:induction false} MissingExactly(rows: seq<Row>, name: string, i: int)
    ensures i in MissingRows(rows, name) <==> 1 <= i <= |rows| && !Present(rows, name, i)
  {
    if rows != [] {
      MissingExactly(rows[..|rows| - 1], name, i);
      assert 1 <= i < |rows| ==> rows[..|rows| - 1][i - 1] == rows[i - 1];
    }
  }

  /** Each row is in exactly one of the two lists, and in the first at most once. */
  lemma RankingParts(rows: seq<Row>, name: string, r: Ranking, i: int)
    requires Decimals(rows, name) && IsRanking(rows, name, r)
    ensures i in r.missingRowIndices || i in r.rowIndices <==> 1 <= i <= |rows|
    ensures !(i in r.missingRowIndices && i in r.rowIndices)
    ensures forall a, b :: 0 <= a < b < |r.rowIndices| ==> r.rowIndices[a] != r.rowIndices[b]
  {
    MissingExactly(rows, name, i);
    hide MissingRows;
  }

  /** There is only one such order. */
  lemma {:induction false} OrderIsUnique(rows: seq<Row>, name: string, xs: seq<int>, ys: seq<int>)
    requires Decimals(rows, name) && AllPresent(rows, name, xs) && AllPresent(rows, name, ys)
    requires Ordered(rows, name, xs) && Ordered(rows, name, ys) && forall i :: i in xs <==> i in ys
    ensures xs == ys
    decreases |xs|
  {
    assert (xs != [] ==> xs[0] in xs) && (ys != [] ==> ys[0] in ys);
    if xs != [] && ys != [] {
      assert xs[0] in xs && ys[0] in ys;
      FirstBefore(rows, name, xs, ys[0]);
      FirstBefore(rows, name, ys, xs[0]);
      Tails(rows, name, xs, ys);
      OrderIsUnique(rows, name, xs[1..], ys[1..]);
      assert xs == [xs[0]] + xs[1..] && ys == [ys[0]] + ys[1..];
    }
  }

  lemma FirstBefore(rows: seq<Row>, name: string, xs: seq<int>, x: int)
    requires Decimals(rows, name) && AllPresent(rows, name, xs) && Ordered(rows, name, xs) && x in xs
    ensures Present(rows, name, x) && (x == xs[0] || Before(rows, name, xs[0], x))
  {
    var a :| 0 <= a < |xs| && xs[a] == x;
  }

  lemma Tails(rows: seq<Row>, name: string, xs: seq<int>, ys: seq<int>)
    requires Decimals(rows, name) && AllPresent(rows, name, xs) && AllPresent(rows, name, ys)
    requires Ordered(rows, name, xs) && Ordered(rows, name, ys) && (forall i :: i in xs <==> i in ys)
    requires xs != [] && ys != [] && xs[0] == ys[0]
    ensures AllPresent(rows, name, xs[1..]) && AllPresent(rows, name, ys[1..])
    ensures Ordered(rows, name, xs[1..]) && Ordered(rows, name, ys[1..])
    ensures forall i :: i in xs[1..] <==> i in ys[1..]
  {
    TailContents(rows, name, xs);
    TailContents(rows, name, ys);
  }

  lemma TailContents(rows: seq<Row>, name: string, xs: seq<int>)
    requires Decimals(rows, name) && AllPresent(rows, name, xs) && Ordered(rows, name, xs) && xs != []
    ensures forall i :: i in xs[1..] <==> i in xs && i != xs[0]
  {
    assert forall a :: 0 < a < |xs| ==> Before(rows, name, xs[0], xs[a]);
    assert xs == [xs[0]] + xs[1..];
  }
}
