/** The income-by-category bar chart: one bar per category value found in
    the entries, with the sum of their amounts. */
module IncomeChart {
  import opened Common
  import opened Grouping
  import opened ChartData

  /** The key of the `reduce`: the entry's category as it is, with no
      default for a missing one. */
  function CategoryKey(e: Entry): string
  {
    e.category
  }

  datatype Bar = Bar(name: string, total: real)

  /** `chartData`: the dictionary's entries as `{name, total}` bars. */
  function ChartBars(es: seq<Entry>): (bars: seq<Bar>)
    ensures |bars| == |Chart(es, CategoryKey)|
    ensures forall i :: 0 <= i < |bars| ==>
      bars[i].name == Chart(es, CategoryKey)[i].0 && bars[i].total == Chart(es, CategoryKey)[i].1
  {
    var points := Chart(es, CategoryKey);
    seq(|points|, i requires 0 <= i < |points| => Bar(points[i].0, points[i].1))
  }

  ghost predicate HasBar(bars: seq<Bar>, name: string)
  {
    exists i :: 0 <= i < |bars| && bars[i].name == name
  }

  /** Sum of the bar totals. */
  function BarSum(bars: seq<Bar>): real
  {
    if bars == [] then 0.0 else BarSum(bars[..|bars| - 1]) + bars[|bars| - 1].total
  }

  lemma {:induction false} BarSumOfPoints(bars: seq<Bar>, points: seq<(string, real)>)
    requires |bars| == |points|
    requires forall i :: 0 <= i < |bars| ==> bars[i].total == points[i].1
    ensures BarSum(bars) == Sum(points)
  {
    if bars != [] {
      var n := |bars| - 1;
      BarSumOfPoints(bars[..n], points[..n]);
    }
  }

  /** One bar per distinct category value, for exactly the categories some
      entry carries (an empty one included); each total is the sum of that
      category's amounts, non-numeric ones counting as 0; the totals add up
      to the sum of all amounts, negative ones included; no entries, no
      bars. */
  lemma ChartBarsFacts(es: seq<Entry>)
    ensures var bars := ChartBars(es);
      && (forall i, j :: 0 <= i < j < |bars| ==> bars[i].name != bars[j].name)
      && (forall c :: HasBar(bars, c) <==> exists k :: 0 <= k < |es| && es[k].category == c)
      && (forall i :: 0 <= i < |bars| ==> bars[i].total == KeyTotal(es, CategoryKey, bars[i].name))
      && BarSum(bars) == EntryTotal(es)
      && (es == [] ==> bars == [])
  {
    var bars := ChartBars(es);
    var points := Chart(es, CategoryKey);
    ChartKeys(es, CategoryKey);
    ChartTotals(es, CategoryKey);
    BarSumOfPoints(bars, points);
    forall c ensures HasBar(bars, c) <==> Lists(points, c) {
      if HasBar(bars, c) {
        var i :| 0 <= i < |bars| && bars[i].name == c;
        assert points[i].0 == c;
      }
      if Lists(points, c) {
        var i :| 0 <= i < |points| && points[i].0 == c;
        assert bars[i].name == c;
      }
    }
    forall c ensures KeyOccurs(es, CategoryKey, c) <==> exists k :: 0 <= k < |es| && es[k].category == c {
      if KeyOccurs(es, CategoryKey, c) {
        var k :| 0 <= k < |es| && CategoryKey(es[k]) == c;
        assert es[k].category == c;
      }
    }
  }
}
