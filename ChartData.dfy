/** What both charts of the income page compute: a `reduce` over the entries
    into a dictionary keyed by some attribute of the entry, adding each
    entry's amount (a missing or non-numeric one counting as 0), listed by
    `Object.entries`. */
module ChartData {
  import opened Common
  import opened Grouping

  /** The `(key, amount)` pairs the `reduce` adds, in entry order. */
  function KeyedAmounts<K>(es: seq<Entry>, key: Entry -> K): (ps: seq<(K, real)>)
    ensures |ps| == |es|
    ensures forall i :: 0 <= i < |es| ==> ps[i] == (key(es[i]), Coerce(es[i].amount))
  {
    if es == [] then []
    else
      var n := |es| - 1;
      var pre := KeyedAmounts(es[..n], key);
      assert forall i :: 0 <= i < n ==> es[..n][i] == es[i];
      pre + [(key(es[n]), Coerce(es[n].amount))]
  }

  /** Reference definition: the sum of the amounts of the entries under key
      `k`. */
  ghost function KeyTotal<K>(es: seq<Entry>, key: Entry -> K, k: K): real
  {
    if es == [] then 0.0
    else KeyTotal(es[..|es| - 1], key, k) + (if key(es[|es| - 1]) == k then Coerce(es[|es| - 1].amount) else 0.0)
  }

  ghost predicate KeyOccurs<K>(es: seq<Entry>, key: Entry -> K, k: K)
  {
    exists i :: 0 <= i < |es| && key(es[i]) == k
  }

  ghost predicate Lists<K>(points: seq<(K, real)>, k: K)
  {
    exists i :: 0 <= i < |points| && points[i].0 == k
  }

  /** `Object.entries(entries.reduce(...))`. */
  function Chart<K(==)>(es: seq<Entry>, key: Entry -> K): seq<(K, real)>
  {
    FoldSum(KeyedAmounts(es, key));
    Entries(Fold(KeyedAmounts(es, key)))
  }

  /** The pairs under key `k` add up to the amounts of the entries under
      `k`, and all pairs to the sum of all amounts. */
  lemma {:induction false} KeyedTotals<K>(es: seq<Entry>, key: Entry -> K)
    ensures forall k :: Total(KeyedAmounts(es, key), k) == KeyTotal(es, key, k)
    ensures Sum(KeyedAmounts(es, key)) == EntryTotal(es)
  {
    if es != [] {
      var n := |es| - 1;
      KeyedTotals(es[..n], key);
      assert KeyedAmounts(es, key)[..n] == KeyedAmounts(es[..n], key);
    }
  }

  /** One point per distinct key, listing exactly the keys some entry
      carries. */
  lemma ChartKeys<K>(es: seq<Entry>, key: Entry -> K)
    ensures var points := Chart(es, key);
      && (forall i, j :: 0 <= i < j < |points| ==> points[i].0 != points[j].0)
      && (forall k :: Lists(points, k) <==> KeyOccurs(es, key, k))
  {
    var ps := KeyedAmounts(es, key);
    var points := Chart(es, key);
    FoldFacts(ps);
    forall k ensures Lists(points, k) <==> KeyOccurs(es, key, k) {
      if Lists(points, k) {
        var i :| 0 <= i < |points| && points[i].0 == k;
        assert Fold(ps).order[i] == k;
        var m :| 0 <= m < |ps| && ps[m].0 == k;
        assert key(es[m]) == k;
      }
      if KeyOccurs(es, key, k) {
        var m :| 0 <= m < |es| && key(es[m]) == k;
        assert ps[m].0 == k;
        assert HasKey(ps, k);
        assert k in Fold(ps).order;
        var i :| 0 <= i < |Fold(ps).order| && Fold(ps).order[i] == k;
        assert points[i].0 == k;
      }
    }
  }

  /** Each point's total is the sum of the amounts under its key, and the
      totals add up to the sum of all amounts; no entries, no points. */
  lemma ChartTotals<K>(es: seq<Entry>, key: Entry -> K)
    ensures var points := Chart(es, key);
      && (forall i :: 0 <= i < |points| ==> points[i].1 == KeyTotal(es, key, points[i].0))
      && Sum(points) == EntryTotal(es)
      && (es == [] ==> points == [])
  {
    var ps := KeyedAmounts(es, key);
    FoldFacts(ps);
    FoldSum(ps);
    KeyedTotals(es, key);
    var points := Chart(es, key);
    forall i | 0 <= i < |points| ensures points[i].1 == KeyTotal(es, key, points[i].0) {
      var k := Fold(ps).order[i];
      assert k in Fold(ps).totals;
      assert points[i] == (k, Fold(ps).totals[k]);
    }
  }

  /** Points come in order of first appearance: whenever an entry carries
      the key of a later point, an earlier entry carries the key of every
      point before it. */
  lemma ChartFirstSeen<K>(es: seq<Entry>, key: Entry -> K, i: nat, j: nat, m: nat)
    requires i < j < |Chart(es, key)|
    requires m < |es| && key(es[m]) == Chart(es, key)[j].0
    ensures exists l :: 0 <= l < m && key(es[l]) == Chart(es, key)[i].0
  {
    var ps := KeyedAmounts(es, key);
    FoldSum(ps);
    FoldFirstSeen(ps, i, j, m);
    var l :| 0 <= l < |ps[..m]| && ps[..m][l].0 == Fold(ps).order[i];
    assert key(es[l]) == Chart(es, key)[i].0;
  }
}
