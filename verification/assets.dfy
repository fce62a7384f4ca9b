/** The asset records of one market snapshot and the six-column table built from them. */
module Assets {

  /** One record of the markets payload: the six consumed fields, and every other
      field of the payload (identifier, image URL, ...) abstracted as text. */
  datatype Coin = Coin(
    name: string,
    symbol: string,
    currentPrice: real,
    marketCap: real,
    totalVolume: real,
    priceChange24h: real,
    otherFields: map<string, string>)

  /** One row of the analysed table: exactly the six selected columns. */
  datatype Row = Row(
    name: string,
    symbol: string,
    currentPrice: real,
    marketCap: real,
    totalVolume: real,
    priceChange24h: real)

  /** The numeric columns of the table. */
  datatype NumericColumn = CurrentPrice | MarketCap | TotalVolume | PriceChange24h

  function Value(row: Row, col: NumericColumn): real {
    match col
    case CurrentPrice => row.currentPrice
    case MarketCap => row.marketCap
    case TotalVolume => row.totalVolume
    case PriceChange24h => row.priceChange24h
  }

  /** Selecting the six named columns: one row per record, in payload order. */
  function Project(coins: seq<Coin>): (rows: seq<Row>)
    ensures |rows| == |coins|
    ensures forall i :: 0 <= i < |rows| ==>
      && rows[i].name == coins[i].name
      && rows[i].symbol == coins[i].symbol
      && rows[i].currentPrice == coins[i].currentPrice
      && rows[i].marketCap == coins[i].marketCap
      && rows[i].totalVolume == coins[i].totalVolume
      && rows[i].priceChange24h == coins[i].priceChange24h
  {
    seq(|coins|, i requires 0 <= i < |coins| =>
      Row(coins[i].name, coins[i].symbol, coins[i].currentPrice,
          coins[i].marketCap, coins[i].totalVolume, coins[i].priceChange24h))
  }

  /** Two payloads that agree on the six consumed fields give the same table:
      nothing else in a record reaches the analysis. */
  lemma ProjectIgnoresOtherFields(a: seq<Coin>, b: seq<Coin>)
    requires |a| == |b|
    requires forall i :: 0 <= i < |a| ==>
      a[i].(otherFields := map[]) == b[i].(otherFields := map[])
    ensures Project(a) == Project(b)
  {
  }

  /** The column `col` of a table, one value per row. */
  function Column(rows: seq<Row>, col: NumericColumn): (xs: seq<real>)
    ensures |xs| == |rows|
    ensures forall i :: 0 <= i < |rows| ==> xs[i] == Value(rows[i], col)
  {
    seq(|rows|, i requires 0 <= i < |rows| => Value(rows[i], col))
  }

  /** Every value negated: ranking by the negation ranks smallest first. */
  function Negated(xs: seq<real>): (ys: seq<real>)
    ensures |ys| == |xs|
    ensures forall i :: 0 <= i < |xs| ==> ys[i] == -xs[i]
  {
    seq(|xs|, i requires 0 <= i < |xs| => -xs[i])
  }
}
