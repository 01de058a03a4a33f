/** A JavaScript object used as a dictionary of running totals, as the
    aggregations build it with `acc[k] = (acc[k] || 0) + v` inside `reduce`
    or `forEach`: keys in insertion order (what `Object.keys` and
    `Object.entries` list) and one total per key. Also the insertion-ordered
    `Set` used to merge two key lists. */
module Grouping {

  datatype Acc<K> = Acc(order: seq<K>, totals: map<K, real>)

  ghost predicate Distinct<K>(s: seq<K>)
  {
    forall i, j :: 0 <= i < j < |s| ==> s[i] != s[j]
  }

  /** Every listed key has a total, every total is listed, and no key is
      listed twice. */
  ghost predicate Valid<K>(a: Acc<K>)
  {
    && Distinct(a.order)
    && (forall k | k in a.totals :: k in a.order)
    && (forall i | 0 <= i < |a.order| :: a.order[i] in a.totals)
  }

  function Empty<K(==)>(): Acc<K>
  {
    Acc([], map[])
  }

  /** `acc[k] = (acc[k] || 0) + v`: a new key is listed last. */
  function Add<K(==)>(a: Acc<K>, k: K, v: real): Acc<K>
  {
    if k in a.totals then Acc(a.order, a.totals[k := a.totals[k] + v])
    else Acc(a.order + [k], a.totals[k := v])
  }

  /** `pairs.reduce((acc, [k, v]) => add(acc, k, v), {})`, left to right. */
  function Fold<K(==)>(ps: seq<(K, real)>): Acc<K>
  {
    if ps == [] then Empty()
    else Add(Fold(ps[..|ps| - 1]), ps[|ps| - 1].0, ps[|ps| - 1].1)
  }

  /** Folding one more pair adds it to the fold of the others. */
  lemma FoldAppend<K>(ps: seq<(K, real)>, p: (K, real))
    ensures Fold(ps + [p]) == Add(Fold(ps), p.0, p.1)
  {
    assert (ps + [p])[..|ps|] == ps;
  }

  /** `Object.entries(acc)`. */
  function Entries<K(==)>(a: Acc<K>): (es: seq<(K, real)>)
    requires forall i :: 0 <= i < |a.order| ==> a.order[i] in a.totals
    ensures |es| == |a.order|
    ensures forall i :: 0 <= i < |es| ==> es[i] == (a.order[i], a.totals[a.order[i]])
  {
    seq(|a.order|, i requires 0 <= i < |a.order| => (a.order[i], a.totals[a.order[i]]))
  }

  // Reference definitions, independent of the accumulator.

  /** Some pair carries key `k`. */
  ghost predicate HasKey<K>(ps: seq<(K, real)>, k: K)
  {
    exists i :: 0 <= i < |ps| && ps[i].0 == k
  }

  /** Sum of the values carried by key `k`. */
  function Total<K(==)>(ps: seq<(K, real)>, k: K): real
  {
    if ps == [] then 0.0
    else Total(ps[..|ps| - 1], k) + (if ps[|ps| - 1].0 == k then ps[|ps| - 1].1 else 0.0)
  }

  /** Sum of all values. */
  function Sum<K(==)>(ps: seq<(K, real)>): real
  {
    if ps == [] then 0.0 else Sum(ps[..|ps| - 1]) + ps[|ps| - 1].1
  }

  lemma HasKeyLast<K>(ps: seq<(K, real)>, k: K)
    requires ps != []
    ensures HasKey(ps, k) <==> HasKey(ps[..|ps| - 1], k) || ps[|ps| - 1].0 == k
  {
    var pre := ps[..|ps| - 1];
    if HasKey(pre, k) {
      var i :| 0 <= i < |pre| && pre[i].0 == k;
      assert ps[i].0 == k;
    }
    if HasKey(ps, k) && ps[|ps| - 1].0 != k {
      var i :| 0 <= i < |ps| && ps[i].0 == k;
      assert pre[i].0 == k;
    }
  }

  lemma {:induction false} TotalAbsent<K>(ps: seq<(K, real)>, k: K)
    requires !HasKey(ps, k)
    ensures Total(ps, k) == 0.0
  {
    if ps != [] {
      HasKeyLast(ps, k);
      TotalAbsent(ps[..|ps| - 1], k);
    }
  }

  /** The fold lists exactly the keys that occur, each once, and keeps under
      each key the sum of its values. */
  lemma {:induction false} FoldFacts<K>(ps: seq<(K, real)>)
    ensures Valid(Fold(ps))
    ensures forall k :: k in Fold(ps).totals <==> HasKey(ps, k)
    ensures forall k :: k in Fold(ps).totals ==> Fold(ps).totals[k] == Total(ps, k)
  {
    if ps != [] {
      var pre := ps[..|ps| - 1];
      var (k, v) := ps[|ps| - 1];
      FoldFacts(pre);
      forall x ensures HasKey(ps, x) <==> HasKey(pre, x) || x == k {
        HasKeyLast(ps, x);
      }
      if k !in Fold(pre).totals {
        TotalAbsent(pre, k);
        var o := Fold(pre).order;
        assert forall i :: 0 <= i < |o| ==> o[i] != k;
      }
    }
  }

  lemma {:induction false} FoldTotalsNonNegative<K>(ps: seq<(K, real)>)
    requires forall i :: 0 <= i < |ps| ==> ps[i].1 >= 0.0
    ensures forall k :: k in Fold(ps).totals ==> Fold(ps).totals[k] >= 0.0
  {
    if ps != [] {
      FoldTotalsNonNegative(ps[..|ps| - 1]);
    }
  }

  lemma {:induction false} SumAppend<K>(ps: seq<(K, real)>, p: (K, real))
    ensures Sum(ps + [p]) == Sum(ps) + p.1
  {
    assert (ps + [p])[..|ps|] == ps;
  }

  /** Two total maps that agree on the listed keys give the same entries. */
  lemma EntriesAgree<K>(order: seq<K>, t1: map<K, real>, t2: map<K, real>)
    requires forall i :: 0 <= i < |order| ==> order[i] in t1 && order[i] in t2 && t1[order[i]] == t2[order[i]]
    ensures Entries(Acc(order, t1)) == Entries(Acc(order, t2))
  {
  }

  /** Raising the total of one listed key by `v` raises the sum of the
      entries by `v`. */
  lemma {:induction false} SumEntriesBump<K>(order: seq<K>, t: map<K, real>, k: K, v: real)
    requires Distinct(order) && k in order
    requires forall i :: 0 <= i < |order| ==> order[i] in t
    ensures Sum(Entries(Acc(order, t[k := t[k] + v]))) == Sum(Entries(Acc(order, t))) + v
  {
    var n := |order| - 1;
    var pre := order[..n];
    var t' := t[k := t[k] + v];
    assert Entries(Acc(order, t')) == Entries(Acc(pre, t')) + [(order[n], t'[order[n]])];
    assert Entries(Acc(order, t)) == Entries(Acc(pre, t)) + [(order[n], t[order[n]])];
    SumAppend(Entries(Acc(pre, t')), (order[n], t'[order[n]]));
    SumAppend(Entries(Acc(pre, t)), (order[n], t[order[n]]));
    if order[n] == k {
      assert forall i :: 0 <= i < |pre| ==> pre[i] != k;
      EntriesAgree(pre, t', t);
    } else {
      assert k in pre by {
        var j :| 0 <= j < |order| && order[j] == k;
        assert pre[j] == k;
      }
      SumEntriesBump(pre, t, k, v);
    }
  }

  /** Listing a new key last, with total `v`, raises the sum of the entries
      by `v`. */
  lemma SumEntriesNew<K>(order: seq<K>, t: map<K, real>, k: K, v: real)
    requires k !in order
    requires forall i :: 0 <= i < |order| ==> order[i] in t
    ensures Sum(Entries(Acc(order + [k], t[k := v]))) == Sum(Entries(Acc(order, t))) + v
  {
    var t' := t[k := v];
    EntriesAgree(order, t', t);
    assert Entries(Acc(order + [k], t')) == Entries(Acc(order, t')) + [(k, v)];
    SumAppend(Entries(Acc(order, t')), (k, v));
  }

  /** Object.entries of the fold carries, in all, the sum of all values. */
  lemma {:induction false} FoldSum<K>(ps: seq<(K, real)>)
    ensures forall i :: 0 <= i < |Fold(ps).order| ==> Fold(ps).order[i] in Fold(ps).totals
    ensures Sum(Entries(Fold(ps))) == Sum(ps)
  {
    FoldFacts(ps);
    if ps != [] {
      var pre := ps[..|ps| - 1];
      var (k, v) := ps[|ps| - 1];
      var a := Fold(pre);
      FoldSum(pre);
      FoldFacts(pre);
      SumAppend(pre, (k, v));
      assert pre + [(k, v)] == ps;
      if k in a.totals {
        SumEntriesBump(a.order, a.totals, k, v);
      } else {
        SumEntriesNew(a.order, a.totals, k, v);
      }
    }
  }

  /** `m[k] || 0`. */
  function Get<K(==)>(m: map<K, real>, k: K): real
  {
    if k in m then m[k] else 0.0
  }

  /** Sum of `m[k] || 0` over the listed keys. */
  function SumOver<K(==)>(keys: seq<K>, m: map<K, real>): real
  {
    if keys == [] then 0.0 else SumOver(keys[..|keys| - 1], m) + Get(m, keys[|keys| - 1])
  }

  lemma {:induction false} SumOverConcat<K>(a: seq<K>, b: seq<K>, m: map<K, real>)
    ensures SumOver(a + b, m) == SumOver(a, m) + SumOver(b, m)
    decreases |b|
  {
    if b == [] {
      assert a + b == a;
    } else {
      var n := |b| - 1;
      assert (a + b)[..|a + b| - 1] == a + b[..n];
      SumOverConcat(a, b[..n], m);
    }
  }

  /** Summing the totals over the listed keys is summing the entries. */
  lemma {:induction false} SumOverEntries<K>(a: Acc<K>)
    requires forall i :: 0 <= i < |a.order| ==> a.order[i] in a.totals
    ensures SumOver(a.order, a.totals) == Sum(Entries(a))
    decreases |a.order|
  {
    if a.order != [] {
      var n := |a.order| - 1;
      var pre := Acc(a.order[..n], a.totals);
      SumOverEntries(pre);
      assert Entries(a) == Entries(pre) + [(a.order[n], a.totals[a.order[n]])];
      SumAppend(Entries(pre), (a.order[n], a.totals[a.order[n]]));
    }
  }

  /** Taking one key out of the list takes its value out of the sum. */
  lemma SumOverRemove<K>(s: seq<K>, p: nat, m: map<K, real>)
    requires p < |s|
    ensures SumOver(s, m) == SumOver(s[..p] + s[p + 1..], m) + Get(m, s[p])
  {
    assert s == s[..p] + [s[p]] + s[p + 1..];
    SumOverConcat(s[..p], s[p + 1..], m);
    SumOverConcat(s[..p], [s[p]], m);
    SumOverConcat(s[..p] + [s[p]], s[p + 1..], m);
    assert [s[p]][..0] == [];
  }

  /** Taking one element out of a duplicate-free list leaves a
      duplicate-free list of the other elements. */
  lemma DistinctRemove<K>(s: seq<K>, p: nat)
    requires p < |s| && Distinct(s)
    ensures Distinct(s[..p] + s[p + 1..])
    ensures forall y :: y in s[..p] + s[p + 1..] <==> y in s && y != s[p]
  {
    var rest := s[..p] + s[p + 1..];
    assert s == s[..p] + [s[p]] + s[p + 1..];
    forall i | 0 <= i < |rest| ensures rest[i] == s[if i < p then i else i + 1] {
    }
  }

  /** The keyed sum does not depend on the order of the keys, nor on keys
      worth nothing: over two duplicate-free key lists, one of which holds
      the other and whose extra keys are worth 0, the sums agree. */
  lemma {:induction false} SumOverCovering<K>(big: seq<K>, small: seq<K>, m: map<K, real>)
    requires Distinct(big) && Distinct(small)
    requires forall i :: 0 <= i < |small| ==> small[i] in big
    requires forall i :: 0 <= i < |big| && big[i] !in small ==> Get(m, big[i]) == 0.0
    ensures SumOver(big, m) == SumOver(small, m)
    decreases |big|
  {
    if big == [] {
    } else {
      var n := |big| - 1;
      var x := big[n];
      var pre := big[..n];
      assert forall i :: 0 <= i < n ==> pre[i] != x;
      assert forall y :: y in big && y != x ==> y in pre by {
        assert big == pre + [x];
      }
      if x !in small {
        SumOverCovering(pre, small, m);
      } else {
        var p :| 0 <= p < |small| && small[p] == x;
        var rest := small[..p] + small[p + 1..];
        DistinctRemove(small, p);
        SumOverCovering(pre, rest, m);
        SumOverRemove(small, p, m);
      }
    }
  }

  /** Keys are only ever appended: the fold of a prefix lists a prefix of the
      keys of the whole fold. */
  lemma {:induction false} FoldOrderGrows<K>(ps: seq<(K, real)>, n: nat)
    requires n <= |ps|
    ensures Fold(ps[..n]).order <= Fold(ps).order
    decreases |ps|
  {
    if n < |ps| {
      var pre := ps[..|ps| - 1];
      assert pre[..n] == ps[..n];
      FoldOrderGrows(pre, n);
    } else {
      assert ps[..n] == ps;
    }
  }

  /** First-seen order: a key listed before another occurs in the input
      before every occurrence of the later key. */
  lemma FoldFirstSeen<K>(ps: seq<(K, real)>, i: nat, j: nat, m: nat)
    requires i < j < |Fold(ps).order|
    requires m < |ps| && ps[m].0 == Fold(ps).order[j]
    ensures HasKey(ps[..m], Fold(ps).order[i])
  {
    var o := Fold(ps).order;
    var upto := ps[..m + 1];
    FoldOrderGrows(ps, m + 1);
    FoldFacts(ps);
    FoldFacts(upto);
    var p := Fold(upto).order;
    assert upto[m].0 == o[j];
    assert o[j] in p;
    var jj :| 0 <= jj < |p| && p[jj] == o[j];
    assert o[jj] == o[j];
    assert jj == j;
    assert o[i] == p[i];
    assert HasKey(upto, o[i]);
    var w :| 0 <= w < |upto| && upto[w].0 == o[i];
    assert w != m;
    assert ps[..m][w].0 == o[i];
  }

  /** The key order of the fold depends only on the keys, not the values. */
  lemma {:induction false} FoldOrderByKeys<K>(ps: seq<(K, real)>, qs: seq<(K, real)>)
    requires |ps| == |qs|
    requires forall i :: 0 <= i < |ps| ==> ps[i].0 == qs[i].0
    ensures Fold(ps).order == Fold(qs).order
    ensures forall k :: k in Fold(ps).totals <==> k in Fold(qs).totals
  {
    if ps != [] {
      FoldOrderByKeys(ps[..|ps| - 1], qs[..|qs| - 1]);
    }
  }

  /** `[...new Set(s)]`: the distinct elements in first-occurrence order. */
  function Unique<K(==)>(s: seq<K>): seq<K>
  {
    if s == [] then []
    else
      var u := Unique(s[..|s| - 1]);
      if s[|s| - 1] in u then u else u + [s[|s| - 1]]
  }

  lemma {:induction false} UniqueFacts<K>(s: seq<K>)
    ensures Distinct(Unique(s))
    ensures forall x :: x in Unique(s) <==> x in s
  {
    if s != [] {
      var pre := s[..|s| - 1];
      UniqueFacts(pre);
      assert s == pre + [s[|s| - 1]];
    }
  }

  /** The set of distinct elements begins with the distinct elements of any
      prefix. */
  lemma {:induction false} UniquePrefix<K>(a: seq<K>, b: seq<K>)
    ensures Unique(a) <= Unique(a + b)
    decreases |b|
  {
    if b == [] {
      assert a + b == a;
    } else {
      var n := |b| - 1;
      assert (a + b)[..|a + b| - 1] == a + b[..n];
      UniquePrefix(a, b[..n]);
    }
  }

  lemma {:induction false} UniqueOfDistinct<K>(s: seq<K>)
    requires Distinct(s)
    ensures Unique(s) == s
  {
    if s != [] {
      var pre := s[..|s| - 1];
      UniqueOfDistinct(pre);
      assert s[|s| - 1] !in pre;
      assert pre + [s[|s| - 1]] == s;
    }
  }
}
