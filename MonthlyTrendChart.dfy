/** The monthly trend line chart: one point per short month name found in
    the entries' dates, in order of first appearance, with the sum of their
    amounts. The year takes no part in the key. */
module MonthlyTrendChart {
  import opened Common
  import opened Grouping
  import opened ChartData

  /** The key of the `reduce`: the short month name of the entry's date, or
      "Invalid Date". */
  function MonthKey(e: Entry): string
  {
    MonthLabel(e.when)
  }

  datatype Point = Point(month: string, total: real)

  /** `chartData`: the dictionary's entries as `{month, total}` points. */
  function TrendPoints(es: seq<Entry>): (points: seq<Point>)
    ensures |points| == |Chart(es, MonthKey)|
    ensures forall i :: 0 <= i < |points| ==>
      points[i].month == Chart(es, MonthKey)[i].0 && points[i].total == Chart(es, MonthKey)[i].1
  {
    var ps := Chart(es, MonthKey);
    seq(|ps|, i requires 0 <= i < |ps| => Point(ps[i].0, ps[i].1))
  }

  ghost predicate HasPoint(points: seq<Point>, month: string)
  {
    exists i :: 0 <= i < |points| && points[i].month == month
  }

  function PointSum(points: seq<Point>): real
  {
    if points == [] then 0.0 else PointSum(points[..|points| - 1]) + points[|points| - 1].total
  }

  lemma {:induction false} PointSumOfPairs(points: seq<Point>, ps: seq<(string, real)>)
    requires |points| == |ps|
    requires forall i :: 0 <= i < |points| ==> points[i].total == ps[i].1
    ensures PointSum(points) == Sum(ps)
  {
    if points != [] {
      var n := |points| - 1;
      PointSumOfPairs(points[..n], ps[..n]);
    }
  }

  /** One point per distinct month label carried by some entry; each total
      is the sum of the amounts under that label, non-numeric ones counting
      as 0; the totals add up to the sum of all amounts; no entries, no
      points. */
  lemma TrendPointsFacts(es: seq<Entry>)
    ensures var points := TrendPoints(es);
      && (forall i, j :: 0 <= i < j < |points| ==> points[i].month != points[j].month)
      && (forall m :: HasPoint(points, m) <==> exists k :: 0 <= k < |es| && MonthLabel(es[k].when) == m)
      && (forall i :: 0 <= i < |points| ==> points[i].total == KeyTotal(es, MonthKey, points[i].month))
      && PointSum(points) == EntryTotal(es)
      && (es == [] ==> points == [])
  {
    var points := TrendPoints(es);
    var ps := Chart(es, MonthKey);
    ChartKeys(es, MonthKey);
    ChartTotals(es, MonthKey);
    PointSumOfPairs(points, ps);
    forall m ensures HasPoint(points, m) <==> Lists(ps, m) {
      if HasPoint(points, m) {
        var i :| 0 <= i < |points| && points[i].month == m;
        assert ps[i].0 == m;
      }
      if Lists(ps, m) {
        var i :| 0 <= i < |ps| && ps[i].0 == m;
        assert points[i].month == m;
      }
    }
    forall m ensures KeyOccurs(es, MonthKey, m) <==> exists k :: 0 <= k < |es| && MonthLabel(es[k].when) == m {
      if KeyOccurs(es, MonthKey, m) {
        var k :| 0 <= k < |es| && MonthKey(es[k]) == m;
        assert MonthLabel(es[k].when) == m;
      }
    }
  }

  /** Points follow first appearance, not the calendar: if an entry of a
      later point's month occurs at position `m`, an entry of every earlier
      point's month occurs before it. */
  lemma TrendPointsFirstSeen(es: seq<Entry>, i: nat, j: nat, m: nat)
    requires i < j < |TrendPoints(es)|
    requires m < |es| && MonthLabel(es[m].when) == TrendPoints(es)[j].month
    ensures exists l :: 0 <= l < m && MonthLabel(es[l].when) == TrendPoints(es)[i].month
  {
    ChartFirstSeen(es, MonthKey, i, j, m);
    var l :| 0 <= l < m && MonthKey(es[l]) == Chart(es, MonthKey)[i].0;
    assert MonthLabel(es[l].when) == TrendPoints(es)[i].month;
  }

  /** January 2024 and January 2025 make one point. */
  lemma YearsMerged()
    ensures TrendPoints([
      Entry(1, "2024-01-05", Some(YearMonth(2024, 0)), "Salary", Some(10.0), "Salary", ""),
      Entry(2, "2025-01-07", Some(YearMonth(2025, 0)), "Salary", Some(5.0), "Salary", "")])
      == [Point("Jan", 15.0)]
  {
    var es := [
      Entry(1, "2024-01-05", Some(YearMonth(2024, 0)), "Salary", Some(10.0), "Salary", ""),
      Entry(2, "2025-01-07", Some(YearMonth(2025, 0)), "Salary", Some(5.0), "Salary", "")];
    assert es[..1][..0] == [];
    assert es[..1] == [es[0]];
    assert KeyedAmounts(es, MonthKey) == [("Jan", 10.0), ("Jan", 5.0)];
    var ps := KeyedAmounts(es, MonthKey);
    assert ps[..1] == [("Jan", 10.0)];
    assert ps[..1][..0] == [];
    assert Fold(ps[..1]) == Acc(["Jan"], map["Jan" := 10.0]);
    assert Fold(ps) == Add(Fold(ps[..1]), "Jan", 5.0);
    assert map["Jan" := 10.0]["Jan" := 10.0 + 5.0] == map["Jan" := 15.0];
  }

  /** February entered before January gives the February point first. */
  lemma EntryOrderNotCalendar()
    ensures TrendPoints([
      Entry(1, "2025-02-03", Some(YearMonth(2025, 1)), "Gigs", Some(1.0), "Gigs", ""),
      Entry(2, "2025-01-09", Some(YearMonth(2025, 0)), "Gigs", Some(2.0), "Gigs", "")])
      == [Point("Feb", 1.0), Point("Jan", 2.0)]
  {
    var es := [
      Entry(1, "2025-02-03", Some(YearMonth(2025, 1)), "Gigs", Some(1.0), "Gigs", ""),
      Entry(2, "2025-01-09", Some(YearMonth(2025, 0)), "Gigs", Some(2.0), "Gigs", "")];
    assert KeyedAmounts(es, MonthKey) == [("Feb", 1.0), ("Jan", 2.0)];
    var ps := KeyedAmounts(es, MonthKey);
    assert ps[..1] == [("Feb", 1.0)];
    assert ps[..1][..0] == [];
    assert Fold(ps[..1]) == Acc(["Feb"], map["Feb" := 1.0]);
    assert Fold(ps) == Add(Fold(ps[..1]), "Jan", 2.0);
    assert "Jan" !in map["Feb" := 1.0];
  }
}
