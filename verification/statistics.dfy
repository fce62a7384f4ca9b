/** The statistics step: the six-column table, the five largest market
    capitalisations, the average price, and the largest and smallest 24-hour
    price change of one snapshot. */
module Statistics {
  import opened Results
  import opened Assets
  import Ranking
  import Averages

  /** Number of rows in the market-capitalisation ranking. */
  const TopCount: nat := 5

  /** A row of a two-column selection `[["name", col]]`. `index` is the row's
      label in the table, i.e. its position in the payload; pandas keeps it
      through the selection and only the printed report hides it. */
  datatype Entry = Entry(index: nat, name: string, value: real)

  /** What the report is written from. */
  datatype Report = Report(top5: seq<Entry>, avgPrice: real, highestChange: Entry, lowestChange: Entry)

  /** Everything the statistics step returns. */
  datatype Analysis = Analysis(table: seq<Row>, report: Report)

  /** Selecting the six columns of a frame built from an empty payload fails:
      such a frame has no columns at all. */
  datatype AnalysisError = MissingColumns

  /** The index labels of a selection, in order. */
  function Labels(es: seq<Entry>): (ls: seq<nat>)
    ensures |ls| == |es|
    ensures forall j :: 0 <= j < |es| ==> ls[j] == es[j].index
  {
    seq(|es|, j requires 0 <= j < |es| => es[j].index)
  }

  /** `e` is the (name, col) pair of the row it is labelled with. */
  predicate IsEntryOf(rows: seq<Row>, col: NumericColumn, e: Entry) {
    e.index < |rows| && e.name == rows[e.index].name && e.value == Value(rows[e.index], col)
  }

  /** The rows at `positions`, projected onto the name and `col`. */
  function Pick(rows: seq<Row>, positions: seq<nat>, col: NumericColumn): (es: seq<Entry>)
    requires forall j :: 0 <= j < |positions| ==> positions[j] < |rows|
    ensures |es| == |positions|
    ensures Labels(es) == positions
    ensures forall j :: 0 <= j < |es| ==> IsEntryOf(rows, col, es[j])
  {
    seq(|positions|, j requires 0 <= j < |positions| =>
      Entry(positions[j], rows[positions[j]].name, Value(rows[positions[j]], col)))
  }

  /** `nlargest(n, col)[["name", col]]` with `keep='first'`: the `n` rows with
      the largest values, largest first, equal values in table order, and no
      row left out that beats a row taken. */
  function NLargest(rows: seq<Row>, n: nat, col: NumericColumn): (r: seq<Entry>)
    ensures |r| == Ranking.Min(n, |rows|)
    ensures forall j :: 0 <= j < |r| ==> IsEntryOf(rows, col, r[j])
    ensures forall p, q :: 0 <= p < q < |r| ==>
      r[p].value > r[q].value || (r[p].value == r[q].value && r[p].index < r[q].index)
    ensures forall x, j :: 0 <= x < |rows| && x !in Labels(r) && 0 <= j < |r| ==>
      Value(rows[x], col) < r[j].value || (Value(rows[x], col) == r[j].value && r[j].index < x)
  {
    var scores := Column(rows, col);
    var top := Ranking.TopK(scores, n);
    Pick(rows, top, col)
  }

  /** `nsmallest(n, col)[["name", col]]` with `keep='first'`: the `n` rows with
      the smallest values, smallest first, equal values in table order. */
  function NSmallest(rows: seq<Row>, n: nat, col: NumericColumn): (r: seq<Entry>)
    ensures |r| == Ranking.Min(n, |rows|)
    ensures forall j :: 0 <= j < |r| ==> IsEntryOf(rows, col, r[j])
    ensures forall p, q :: 0 <= p < q < |r| ==>
      r[p].value < r[q].value || (r[p].value == r[q].value && r[p].index < r[q].index)
    ensures forall x, j :: 0 <= x < |rows| && x !in Labels(r) && 0 <= j < |r| ==>
      Value(rows[x], col) > r[j].value || (Value(rows[x], col) == r[j].value && r[j].index < x)
  {
    var scores := Negated(Column(rows, col));
    var top := Ranking.TopK(scores, n);
    Pick(rows, top, col)
  }

  /** The prices of the payload, in payload order. */
  function Prices(coins: seq<Coin>): (ps: seq<real>)
    ensures |ps| == |coins|
    ensures forall i :: 0 <= i < |coins| ==> ps[i] == coins[i].currentPrice
  {
    seq(|coins|, i requires 0 <= i < |coins| => coins[i].currentPrice)
  }

  /** The statistics step. It fails exactly on an empty payload. */
  function Analyze(coins: seq<Coin>): (r: Result<Analysis, AnalysisError>)
    ensures r.Failure? <==> |coins| == 0
    ensures r.Success? ==> r.value.table == Project(coins)
  {
    if |coins| == 0 then
      Failure(MissingColumns)
    else
      var table := Project(coins);
      var top5 := NLargest(table, TopCount, MarketCap);
      var avgPrice := Averages.Mean(Column(table, CurrentPrice));
      var highest := NLargest(table, 1, PriceChange24h)[0];
      var lowest := NSmallest(table, 1, PriceChange24h)[0];
      Success(Analysis(table, Report(top5, avgPrice, highest, lowest)))
  }

  /** The market-capitalisation ranking: `min(5, n)` records of the payload,
      largest capitalisation first, ties in payload order, and every record left
      out has a capitalisation no larger than any taken, and if equal comes later. */
  lemma TopFiveByMarketCap(coins: seq<Coin>)
    requires |coins| > 0
    ensures var t := Analyze(coins).value.report.top5;
      && |t| == Ranking.Min(TopCount, |coins|)
      && (forall j :: 0 <= j < |t| ==>
            t[j].index < |coins| && t[j].name == coins[t[j].index].name && t[j].value == coins[t[j].index].marketCap)
      && (forall p, q :: 0 <= p < q < |t| ==> t[p].value >= t[q].value)
      && (forall p, q :: 0 <= p < q < |t| && t[p].value == t[q].value ==> t[p].index < t[q].index)
      && (forall x, j :: 0 <= x < |coins| && x !in Labels(t) && 0 <= j < |t| ==>
            coins[x].marketCap <= t[j].value && (coins[x].marketCap == t[j].value ==> t[j].index < x))
  {
  }

  /** The largest 24-hour change: a record of the payload whose change is at
      least every record's change, and the first such record. */
  lemma HighestChangeIsFirstMaximum(coins: seq<Coin>)
    requires |coins| > 0
    ensures var e := Analyze(coins).value.report.highestChange;
      && e.index < |coins|
      && e.name == coins[e.index].name
      && e.value == coins[e.index].priceChange24h
      && (forall x :: 0 <= x < |coins| ==> coins[x].priceChange24h <= e.value)
      && (forall x :: 0 <= x < e.index ==> coins[x].priceChange24h < e.value)
  {
  }

  /** The smallest 24-hour change: a record of the payload whose change is at
      most every record's change, and the first such record. */
  lemma LowestChangeIsFirstMinimum(coins: seq<Coin>)
    requires |coins| > 0
    ensures var e := Analyze(coins).value.report.lowestChange;
      && e.index < |coins|
      && e.name == coins[e.index].name
      && e.value == coins[e.index].priceChange24h
      && (forall x :: 0 <= x < |coins| ==> coins[x].priceChange24h >= e.value)
      && (forall x :: 0 <= x < e.index ==> coins[x].priceChange24h > e.value)
  {
  }

  /** The average price is the sum of the prices over their count, so it lies
      between any lower and any upper bound of the prices (in particular the
      cheapest and the dearest record). */
  lemma AveragePriceBounds(coins: seq<Coin>, lo: real, hi: real)
    requires |coins| > 0
    requires forall i :: 0 <= i < |coins| ==> lo <= coins[i].currentPrice <= hi
    ensures var avg := Analyze(coins).value.report.avgPrice;
      && avg == Averages.Sum(Prices(coins)) / (|coins| as real)
      && lo <= avg <= hi
  {
    var prices := Column(Project(coins), CurrentPrice);
    assert prices == Prices(coins);
    var avg := Analyze(coins).value.report.avgPrice;
    assert avg == Averages.Mean(prices);
    Averages.MeanBounds(prices, lo, hi);
  }
}
