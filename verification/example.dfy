/** A worked three-record snapshot. */
module Example {
  import opened Results
  import opened Assets
  import opened Statistics
  import Ranking
  import Averages

  const Snapshot: seq<Coin> := [
    Coin("A", "a", 10.0, 100.0, 0.0, 2.0, map[]),
    Coin("B", "b", 20.0, 300.0, 0.0, -5.0, map[]),
    Coin("C", "c", 5.0, 50.0, 0.0, 9.0, map[])]

  const Table: seq<Row> := [
    Row("A", "a", 10.0, 100.0, 0.0, 2.0),
    Row("B", "b", 20.0, 300.0, 0.0, -5.0),
    Row("C", "c", 5.0, 50.0, 0.0, 9.0)]

  lemma SnapshotTable()
    ensures Project(Snapshot) == Table
  {
  }

  lemma SnapshotTopFive()
    ensures NLargest(Table, TopCount, MarketCap) == [Entry(1, "B", 300.0), Entry(0, "A", 100.0), Entry(2, "C", 50.0)]
  {
    var caps := Column(Table, MarketCap);
    assert caps == [100.0, 300.0, 50.0];
    assert Ranking.IsTop(caps, TopCount, [1, 0, 2]);
    Ranking.TopIsUnique(caps, TopCount, [1, 0, 2]);
  }

  lemma SnapshotHighestChange()
    ensures NLargest(Table, 1, PriceChange24h) == [Entry(2, "C", 9.0)]
  {
  }

  lemma SnapshotLowestChange()
    ensures NSmallest(Table, 1, PriceChange24h) == [Entry(1, "B", -5.0)]
  {
    var negated := Negated(Column(Table, PriceChange24h));
    assert negated == [-2.0, 5.0, -9.0];
    assert Ranking.IsTop(negated, 1, [1]);
    Ranking.TopIsUnique(negated, 1, [1]);
  }

  lemma SnapshotAveragePrice()
    ensures Averages.Mean(Column(Table, CurrentPrice)) == 35.0 / 3.0
  {
    var prices := Column(Table, CurrentPrice);
    assert prices == [10.0, 20.0, 5.0];
    assert prices[..2] == [10.0, 20.0] && prices[..2][..1] == [10.0] && prices[..2][..1][..0] == [];
    assert Averages.Sum([10.0]) == 10.0;
    assert Averages.Sum([10.0, 20.0]) == 30.0;
    assert Averages.Sum(prices) == 35.0;
  }

  /** Largest capitalisation first; the average of 10, 20 and 5 is 35/3; the
      largest change is C's +9 and the smallest is B's -5. */
  lemma ThreeRecordSnapshot()
    ensures Analyze(Snapshot).Success?
    ensures var rep := Analyze(Snapshot).value.report;
      && rep.top5 == [Entry(1, "B", 300.0), Entry(0, "A", 100.0), Entry(2, "C", 50.0)]
      && rep.avgPrice == 35.0 / 3.0
      && rep.highestChange == Entry(2, "C", 9.0)
      && rep.lowestChange == Entry(1, "B", -5.0)
  {
    SnapshotTable();
    SnapshotTopFive();
    SnapshotHighestChange();
    SnapshotLowestChange();
    SnapshotAveragePrice();
  }
}
