/** The analytics page: income and expense per category, profit and loss
    per calendar month in chronological order, and the choice of the empty
    state. The amount of a transaction is already a number in the store, so
    `parseFloat(String(t.amount || "0").replace("₹", ""))` is the amount
    itself and never NaN. */
module Analytics {
  import opened Common
  import opened Grouping

  /** `t.category || "Other"`. */
  function CategoryOf(t: Transaction): (c: string)
    ensures c != ""
    ensures t.category != "" ==> c == t.category
    ensures t.category == "" ==> c == "Other"
  {
    OrElse(t.category, "Other")
  }

  /** What a transaction puts into the income column: its amount when it is
      an income with a positive amount. */
  function IncomePart(t: Transaction): Option<real>
  {
    if t.kind == Income && t.amount > 0.0 then Some(t.amount) else None
  }

  /** What a transaction puts into the expense column: the magnitude of its
      amount when it is an expense with a negative amount. */
  function ExpensePart(t: Transaction): Option<real>
  {
    if t.kind == Expense && t.amount < 0.0 then Some(-t.amount) else None
  }

  /** Both columns only ever receive positive values. */
  lemma PartsPositive(t: Transaction)
    ensures IncomePart(t).Some? ==> IncomePart(t).value > 0.0
    ensures ExpensePart(t).Some? ==> ExpensePart(t).value > 0.0
    ensures !(IncomePart(t).Some? && ExpensePart(t).Some?)
  {
  }

  function Value(part: Transaction -> Option<real>, t: Transaction): real
  {
    match part(t)
    case None => 0.0
    case Some(v) => v
  }

  // ---------------------------------------------------------------------
  // Income and expense by category

  /** The (category, value) pairs one column accumulates, in list order. */
  function Contributions(ts: seq<Transaction>, part: Transaction -> Option<real>): seq<(string, real)>
  {
    if ts == [] then []
    else
      var t := ts[|ts| - 1];
      Contributions(ts[..|ts| - 1], part) + (if part(t).Some? then [(CategoryOf(t), part(t).value)] else [])
  }

  // Reference definitions on the transactions themselves.

  /** Some transaction puts a value into the column under category `c`. */
  ghost predicate Contributes(ts: seq<Transaction>, part: Transaction -> Option<real>, c: string)
  {
    exists i :: 0 <= i < |ts| && part(ts[i]).Some? && CategoryOf(ts[i]) == c
  }

  /** What the column holds under category `c`. */
  function CategorySum(ts: seq<Transaction>, part: Transaction -> Option<real>, c: string): real
  {
    if ts == [] then 0.0
    else
      var t := ts[|ts| - 1];
      CategorySum(ts[..|ts| - 1], part, c) + (if CategoryOf(t) == c then Value(part, t) else 0.0)
  }

  /** What the column holds in all. */
  function ColumnTotal(ts: seq<Transaction>, part: Transaction -> Option<real>): real
  {
    if ts == [] then 0.0 else ColumnTotal(ts[..|ts| - 1], part) + Value(part, ts[|ts| - 1])
  }

  /** A transaction that counts in the column adds one pair at the end. */
  lemma ContributionsStepSome(ts: seq<Transaction>, part: Transaction -> Option<real>, i: nat)
    requires i < |ts| && part(ts[i]).Some?
    ensures Contributions(ts[..i + 1], part) == Contributions(ts[..i], part) + [(CategoryOf(ts[i]), part(ts[i]).value)]
  {
    assert ts[..i + 1][..i] == ts[..i];
  }

  /** A transaction that does not count in the column adds nothing. */
  lemma ContributionsStepNone(ts: seq<Transaction>, part: Transaction -> Option<real>, i: nat)
    requires i < |ts| && part(ts[i]).None?
    ensures Contributions(ts[..i + 1], part) == Contributions(ts[..i], part)
  {
    assert ts[..i + 1][..i] == ts[..i];
  }

  lemma ContributesLast(ts: seq<Transaction>, part: Transaction -> Option<real>, c: string)
    requires ts != []
    ensures Contributes(ts, part, c) <==>
      Contributes(ts[..|ts| - 1], part, c) || (part(ts[|ts| - 1]).Some? && CategoryOf(ts[|ts| - 1]) == c)
  {
    var pre := ts[..|ts| - 1];
    if Contributes(pre, part, c) {
      var i :| 0 <= i < |pre| && part(pre[i]).Some? && CategoryOf(pre[i]) == c;
      assert ts[i] == pre[i];
    }
    if Contributes(ts, part, c) && !(part(ts[|ts| - 1]).Some? && CategoryOf(ts[|ts| - 1]) == c) {
      var i :| 0 <= i < |ts| && part(ts[i]).Some? && CategoryOf(ts[i]) == c;
      assert pre[i] == ts[i];
    }
  }

  /** The pairs carry a category exactly when some transaction contributes
      to it, their per-category totals are the category sums, and their sum
      is the column total. */
  lemma {:induction false} ContributionsFacts(ts: seq<Transaction>, part: Transaction -> Option<real>)
    ensures forall c :: HasKey(Contributions(ts, part), c) <==> Contributes(ts, part, c)
    ensures forall c :: Total(Contributions(ts, part), c) == CategorySum(ts, part, c)
    ensures Sum(Contributions(ts, part)) == ColumnTotal(ts, part)
  {
    if ts != [] {
      var pre := ts[..|ts| - 1];
      var t := ts[|ts| - 1];
      var cp := Contributions(pre, part);
      ContributionsFacts(pre, part);
      forall c ensures Contributes(ts, part, c) <==> Contributes(pre, part, c) || (part(t).Some? && CategoryOf(t) == c) {
        ContributesLast(ts, part, c);
      }
      if part(t).Some? {
        var p := (CategoryOf(t), part(t).value);
        assert Contributions(ts, part) == cp + [p];
        assert (cp + [p])[..|cp|] == cp;
        forall c ensures HasKey(cp + [p], c) <==> HasKey(cp, c) || p.0 == c {
          HasKeyLast(cp + [p], c);
        }
      } else {
        assert Contributions(ts, part) == cp;
      }
    }
  }

  lemma {:induction false} ContributionsPositive(ts: seq<Transaction>, part: Transaction -> Option<real>)
    requires forall t :: part(t).Some? ==> part(t).value > 0.0
    ensures forall i :: 0 <= i < |Contributions(ts, part)| ==> Contributions(ts, part)[i].1 > 0.0
  {
    if ts != [] {
      ContributionsPositive(ts[..|ts| - 1], part);
    }
  }

  /** A prefix of the list contributes a prefix of the pairs. */
  lemma {:induction false} ContributionsPrefix(ts: seq<Transaction>, part: Transaction -> Option<real>, n: nat)
    requires n <= |ts|
    ensures Contributions(ts[..n], part) <= Contributions(ts, part)
    decreases |ts|
  {
    if n < |ts| {
      var pre := ts[..|ts| - 1];
      assert pre[..n] == ts[..n];
      ContributionsPrefix(pre, part, n);
    } else {
      assert ts[..n] == ts;
    }
  }

  /** One bar of the category charts. */
  datatype CategoryRow = CategoryRow(name: string, income: real, expense: real)

  /** `allCategories.map(c => ({name: c, income: incomeMap[c] || 0, expense: expenseMap[c] || 0}))`. */
  function RowsFor(names: seq<string>, income: map<string, real>, expense: map<string, real>): (rows: seq<CategoryRow>)
    ensures |rows| == |names|
    ensures forall i :: 0 <= i < |names| ==> rows[i].name == names[i]
  {
    seq(|names|, i requires 0 <= i < |names| => CategoryRow(names[i], Get(income, names[i]), Get(expense, names[i])))
  }

  /** `categoryData`: the income categories in first-seen order, then the
      expense categories not yet listed, each with both column values. */
  function CategoryRows(ts: seq<Transaction>): seq<CategoryRow>
  {
    var inc := Fold(Contributions(ts, IncomePart));
    var exp := Fold(Contributions(ts, ExpensePart));
    RowsFor(Unique(inc.order + exp.order), inc.totals, exp.totals)
  }

  /** The `forEach` over the transactions that fills `incomeMap` and
      `expenseMap`, followed by the merge of their keys. */
  method CategoryData(ts: seq<Transaction>) returns (rows: seq<CategoryRow>)
    ensures rows == CategoryRows(ts)
  {
    var incomeMap := Empty<string>();
    var expenseMap := Empty<string>();
    for i := 0 to |ts|
      invariant incomeMap == Fold(Contributions(ts[..i], IncomePart))
      invariant expenseMap == Fold(Contributions(ts[..i], ExpensePart))
    {
      var t := ts[i];
      var amount := t.amount;
      var category := CategoryOf(t);
      if t.kind == Income && amount > 0.0 {
        incomeMap := Add(incomeMap, category, amount);
        ContributionsStepSome(ts, IncomePart, i);
        ContributionsStepNone(ts, ExpensePart, i);
        FoldAppend(Contributions(ts[..i], IncomePart), (category, amount));
      } else if t.kind == Expense && amount < 0.0 {
        expenseMap := Add(expenseMap, category, -amount);
        ContributionsStepNone(ts, IncomePart, i);
        ContributionsStepSome(ts, ExpensePart, i);
        FoldAppend(Contributions(ts[..i], ExpensePart), (category, -amount));
      } else {
        ContributionsStepNone(ts, IncomePart, i);
        ContributionsStepNone(ts, ExpensePart, i);
      }
    }
    assert ts[..|ts|] == ts;
    var allCategories := Unique(incomeMap.order + expenseMap.order);
    rows := RowsFor(allCategories, incomeMap.totals, expenseMap.totals);
  }

  /** Each category appears exactly once, and a category appears exactly
      when some transaction counts towards it in either column. */
  lemma CategoryRowsNames(ts: seq<Transaction>)
    ensures var rows := CategoryRows(ts);
      forall i, j :: 0 <= i < j < |rows| ==> rows[i].name != rows[j].name
    ensures var rows := CategoryRows(ts);
      forall c :: (exists i :: 0 <= i < |rows| && rows[i].name == c) <==>
        Contributes(ts, IncomePart, c) || Contributes(ts, ExpensePart, c)
  {
    var ci, ce := Contributions(ts, IncomePart), Contributions(ts, ExpensePart);
    var inc, exp := Fold(ci), Fold(ce);
    var names := Unique(inc.order + exp.order);
    var rows := CategoryRows(ts);
    FoldFacts(ci);
    FoldFacts(ce);
    UniqueFacts(inc.order + exp.order);
    ContributionsFacts(ts, IncomePart);
    ContributionsFacts(ts, ExpensePart);
    forall c ensures (exists i :: 0 <= i < |rows| && rows[i].name == c) <==>
      Contributes(ts, IncomePart, c) || Contributes(ts, ExpensePart, c)
    {
      calc {
        c in names;
        c in inc.order + exp.order;
        c in inc.order || c in exp.order;
        c in inc.totals || c in exp.totals;
        HasKey(ci, c) || HasKey(ce, c);
      }
      if c in names {
        var i :| 0 <= i < |names| && names[i] == c;
        assert rows[i].name == c;
      }
    }
  }

  /** Each column holds under a category the sum of what its transactions
      put there, 0 where none counts, so never a negative value. */
  lemma CategoryRowsValues(ts: seq<Transaction>)
    ensures var rows := CategoryRows(ts);
      forall i :: 0 <= i < |rows| ==>
        && rows[i].income == CategorySum(ts, IncomePart, rows[i].name)
        && rows[i].expense == CategorySum(ts, ExpensePart, rows[i].name)
    ensures var rows := CategoryRows(ts);
      forall i :: 0 <= i < |rows| ==> rows[i].income >= 0.0 && rows[i].expense >= 0.0
  {
    var rows := CategoryRows(ts);
    forall i | 0 <= i < |rows|
      ensures rows[i].income == CategorySum(ts, IncomePart, rows[i].name) >= 0.0
    {
      ColumnValue(ts, IncomePart, rows[i].name);
    }
    forall i | 0 <= i < |rows|
      ensures rows[i].expense == CategorySum(ts, ExpensePart, rows[i].name) >= 0.0
    {
      ColumnValue(ts, ExpensePart, rows[i].name);
    }
  }

  /** `map[c] || 0` of one column's map is the category sum, never negative. */
  lemma ColumnValue(ts: seq<Transaction>, part: Transaction -> Option<real>, c: string)
    requires part == IncomePart || part == ExpensePart
    ensures Get(Fold(Contributions(ts, part)).totals, c) == CategorySum(ts, part, c) >= 0.0
  {
    var cs := Contributions(ts, part);
    FoldFacts(cs);
    ContributionsFacts(ts, part);
    forall t ensures part(t).Some? ==> part(t).value > 0.0 {
      PartsPositive(t);
    }
    ContributionsPositive(ts, part);
    FoldTotalsNonNegative(cs);
    if !HasKey(cs, c) {
      TotalAbsent(cs, c);
    }
  }

  /** Number of distinct income categories. */
  function IncomeCategoryCount(ts: seq<Transaction>): nat
  {
    |Fold(Contributions(ts, IncomePart)).order|
  }

  /** The rows begin with the keys of the income map, in their order. */
  lemma IncomeNamesFirst(ts: seq<Transaction>)
    ensures IncomeCategoryCount(ts) <= |CategoryRows(ts)|
    ensures forall i :: 0 <= i < IncomeCategoryCount(ts) ==>
      CategoryRows(ts)[i].name == Fold(Contributions(ts, IncomePart)).order[i]
  {
    var inc, exp := Fold(Contributions(ts, IncomePart)), Fold(Contributions(ts, ExpensePart));
    FoldFacts(Contributions(ts, IncomePart));
    UniquePrefix(inc.order, exp.order);
    UniqueOfDistinct(inc.order);
  }

  /** The income categories come first; the categories after them have no
      counted income and show 0 in the income column. */
  lemma CategoryRowsIncomeFirst(ts: seq<Transaction>)
    ensures IncomeCategoryCount(ts) <= |CategoryRows(ts)|
    ensures forall i :: 0 <= i < IncomeCategoryCount(ts) ==> Contributes(ts, IncomePart, CategoryRows(ts)[i].name)
    ensures forall i :: IncomeCategoryCount(ts) <= i < |CategoryRows(ts)| ==>
      !Contributes(ts, IncomePart, CategoryRows(ts)[i].name) && CategoryRows(ts)[i].income == 0.0
  {
    var ci := Contributions(ts, IncomePart);
    var inc := Fold(ci);
    var rows := CategoryRows(ts);
    var k := IncomeCategoryCount(ts);
    IncomeNamesFirst(ts);
    CategoryRowsNames(ts);
    FoldFacts(ci);
    ContributionsFacts(ts, IncomePart);
    forall i | 0 <= i < k ensures Contributes(ts, IncomePart, rows[i].name) {
      assert inc.order[i] in inc.totals;
    }
    forall i | k <= i < |rows| ensures !Contributes(ts, IncomePart, rows[i].name) && rows[i].income == 0.0 {
      assert forall j :: 0 <= j < k ==> inc.order[j] == rows[j].name && rows[j].name != rows[i].name;
      assert rows[i].name !in inc.order;
      assert rows[i].name !in inc.totals;
    }
  }

  /** First-seen order: a category listed before an income category has an
      income that occurs before every income of the later one. */
  lemma CategoryRowsFirstSeen(ts: seq<Transaction>, i: nat, j: nat, m: nat)
    requires i < j < |CategoryRows(ts)| && m < |ts|
    requires IncomePart(ts[m]).Some? && CategoryOf(ts[m]) == CategoryRows(ts)[j].name
    ensures Contributes(ts[..m], IncomePart, CategoryRows(ts)[i].name)
  {
    CategoryRowsIncomeFirst(ts);
    IncomeNamesFirst(ts);
    assert Contributes(ts, IncomePart, CategoryRows(ts)[j].name);
    IncomeSeenBefore(ts, i, j, m);
  }

  /** First-seen order of the income categories, on the transactions. */
  lemma IncomeSeenBefore(ts: seq<Transaction>, i: nat, j: nat, m: nat)
    requires i < j < |Fold(Contributions(ts, IncomePart)).order|
    requires m < |ts| && IncomePart(ts[m]).Some?
    requires CategoryOf(ts[m]) == Fold(Contributions(ts, IncomePart)).order[j]
    ensures Contributes(ts[..m], IncomePart, Fold(Contributions(ts, IncomePart)).order[i])
  {
    var o := Fold(Contributions(ts, IncomePart)).order;
    var upto := ts[..m + 1];
    var cu := Contributions(upto, IncomePart);
    ContributionsPrefix(ts, IncomePart, m + 1);
    FoldOrderGrows(Contributions(ts, IncomePart), |cu|);
    assert Contributions(ts, IncomePart)[..|cu|] == cu;
    var p := Fold(cu).order;
    FoldFacts(cu);
    FoldFacts(Contributions(ts, IncomePart));
    ContributionsFacts(upto, IncomePart);
    assert upto[m] == ts[m];
    assert Contributes(upto, IncomePart, o[j]);
    assert o[j] in p;
    var jj :| 0 <= jj < |p| && p[jj] == o[j];
    assert o[jj] == o[j];
    assert jj == j;
    assert p[i] == o[i];
    assert Contributes(upto, IncomePart, o[i]);
    var w :| 0 <= w < |upto| && IncomePart(upto[w]).Some? && CategoryOf(upto[w]) == o[i];
    assert w != m;
    assert ts[..m][w] == upto[w];
  }

  function IncomeColumn(rows: seq<CategoryRow>): real
  {
    if rows == [] then 0.0 else IncomeColumn(rows[..|rows| - 1]) + rows[|rows| - 1].income
  }

  function ExpenseColumn(rows: seq<CategoryRow>): real
  {
    if rows == [] then 0.0 else ExpenseColumn(rows[..|rows| - 1]) + rows[|rows| - 1].expense
  }

  lemma {:induction false} ColumnsOfRowsFor(names: seq<string>, income: map<string, real>, expense: map<string, real>)
    ensures IncomeColumn(RowsFor(names, income, expense)) == SumOver(names, income)
    ensures ExpenseColumn(RowsFor(names, income, expense)) == SumOver(names, expense)
  {
    if names != [] {
      var n := |names| - 1;
      ColumnsOfRowsFor(names[..n], income, expense);
      assert RowsFor(names, income, expense)[..n] == RowsFor(names[..n], income, expense);
    }
  }

  /** Summing one map over any duplicate-free key list holding all of its
      keys gives the sum of the pairs it was folded from. */
  lemma SumOverFold<K>(ps: seq<(K, real)>, names: seq<K>)
    requires Distinct(names)
    requires forall i :: 0 <= i < |Fold(ps).order| ==> Fold(ps).order[i] in names
    ensures SumOver(names, Fold(ps).totals) == Sum(ps)
  {
    var a := Fold(ps);
    FoldFacts(ps);
    SumOverCovering(names, a.order, a.totals);
    SumOverEntries(a);
    FoldSum(ps);
  }

  /** The income column sums to the total of the counted incomes, and the
      expense column to the total magnitude of the counted expenses. */
  lemma CategoryColumnsSum(ts: seq<Transaction>)
    ensures IncomeColumn(CategoryRows(ts)) == ColumnTotal(ts, IncomePart)
    ensures ExpenseColumn(CategoryRows(ts)) == ColumnTotal(ts, ExpensePart)
  {
    var ci, ce := Contributions(ts, IncomePart), Contributions(ts, ExpensePart);
    var inc, exp := Fold(ci), Fold(ce);
    var names := Unique(inc.order + exp.order);
    ColumnsOfRowsFor(names, inc.totals, exp.totals);
    UniqueFacts(inc.order + exp.order);
    assert forall i :: 0 <= i < |inc.order| ==> inc.order[i] in inc.order + exp.order;
    assert forall i :: 0 <= i < |exp.order| ==> exp.order[i] in inc.order + exp.order;
    SumOverFold(ci, names);
    SumOverFold(ce, names);
    ContributionsFacts(ts, IncomePart);
    ContributionsFacts(ts, ExpensePart);
  }

  // ---------------------------------------------------------------------
  // Profit and loss per month

  /** The `{income, expense}` bucket of one month. */
  datatype Bucket = Bucket(income: real, expense: real)

  /** One bar of the profit-and-loss chart, labelled by its month. */
  datatype MonthRow = MonthRow(month: YearMonth, income: real, expense: real)

  /** One (month, value) pair per transaction whose date parses, in list
      order; a transaction that counts in neither column adds 0. */
  function MonthContributions(ts: seq<Transaction>, part: Transaction -> Option<real>): seq<(YearMonth, real)>
  {
    if ts == [] then []
    else
      var t := ts[|ts| - 1];
      MonthContributions(ts[..|ts| - 1], part) + (if t.when.Some? then [(t.when.value, Value(part, t))] else [])
  }

  /** A dated transaction adds one pair for its month, at the end. */
  lemma MonthContributionsStepDated(ts: seq<Transaction>, part: Transaction -> Option<real>, i: nat)
    requires i < |ts| && ts[i].when.Some?
    ensures MonthContributions(ts[..i + 1], part) ==
      MonthContributions(ts[..i], part) + [(ts[i].when.value, Value(part, ts[i]))]
  {
    assert ts[..i + 1][..i] == ts[..i];
  }

  /** A transaction whose date does not parse adds nothing. */
  lemma MonthContributionsStepUndated(ts: seq<Transaction>, part: Transaction -> Option<real>, i: nat)
    requires i < |ts| && ts[i].when.None?
    ensures MonthContributions(ts[..i + 1], part) == MonthContributions(ts[..i], part)
  {
    assert ts[..i + 1][..i] == ts[..i];
  }

  /** Some transaction of the list is dated in `ym`. */
  ghost predicate DatedIn(ts: seq<Transaction>, ym: YearMonth)
  {
    exists i :: 0 <= i < |ts| && ts[i].when == Some(ym)
  }

  /** What one column of the month `ym` holds. */
  function MonthSum(ts: seq<Transaction>, part: Transaction -> Option<real>, ym: YearMonth): real
  {
    if ts == [] then 0.0
    else
      var t := ts[|ts| - 1];
      MonthSum(ts[..|ts| - 1], part, ym) + (if t.when == Some(ym) then Value(part, t) else 0.0)
  }

  lemma {:induction false} MonthContributionsFacts(ts: seq<Transaction>, part: Transaction -> Option<real>)
    ensures forall ym :: HasKey(MonthContributions(ts, part), ym) <==> DatedIn(ts, ym)
    ensures forall ym :: Total(MonthContributions(ts, part), ym) == MonthSum(ts, part, ym)
  {
    if ts != [] {
      var pre := ts[..|ts| - 1];
      var t := ts[|ts| - 1];
      var cp := MonthContributions(pre, part);
      MonthContributionsFacts(pre, part);
      forall ym ensures DatedIn(ts, ym) <==> DatedIn(pre, ym) || t.when == Some(ym) {
        if DatedIn(pre, ym) {
          var i :| 0 <= i < |pre| && pre[i].when == Some(ym);
          assert ts[i] == pre[i];
        }
        if DatedIn(ts, ym) && t.when != Some(ym) {
          var i :| 0 <= i < |ts| && ts[i].when == Some(ym);
          assert pre[i] == ts[i];
        }
      }
      if t.when.Some? {
        var p := (t.when.value, Value(part, t));
        assert MonthContributions(ts, part) == cp + [p];
        assert (cp + [p])[..|cp|] == cp;
        forall ym ensures HasKey(cp + [p], ym) <==> HasKey(cp, ym) || p.0 == ym {
          HasKeyLast(cp + [p], ym);
        }
      } else {
        assert MonthContributions(ts, part) == cp;
      }
    }
  }

  /** Both columns see the same months in the same order. */
  lemma {:induction false} MonthKeysAgree(ts: seq<Transaction>, p1: Transaction -> Option<real>, p2: Transaction -> Option<real>)
    ensures |MonthContributions(ts, p1)| == |MonthContributions(ts, p2)|
    ensures forall i :: 0 <= i < |MonthContributions(ts, p1)| ==>
      MonthContributions(ts, p1)[i].0 == MonthContributions(ts, p2)[i].0
  {
    if ts != [] {
      MonthKeysAgree(ts[..|ts| - 1], p1, p2);
    }
  }

  lemma {:induction false} MonthContributionsNonNegative(ts: seq<Transaction>, part: Transaction -> Option<real>)
    requires forall t :: part(t).Some? ==> part(t).value > 0.0
    ensures forall i :: 0 <= i < |MonthContributions(ts, part)| ==> MonthContributions(ts, part)[i].1 >= 0.0
  {
    if ts != [] {
      MonthContributionsNonNegative(ts[..|ts| - 1], part);
    }
  }

  /** The month rows of two folds over the same months, in the key order of
      the first. */
  function FoldRows(inc: Acc<YearMonth>, exp: Acc<YearMonth>): seq<MonthRow>
  {
    seq(|inc.order|, i requires 0 <= i < |inc.order| =>
      MonthRow(inc.order[i], Get(inc.totals, inc.order[i]), Get(exp.totals, inc.order[i])))
  }

  /** The month rows before sorting, in first-seen order of the months. */
  function MonthRowsUnsorted(ts: seq<Transaction>): seq<MonthRow>
  {
    FoldRows(Fold(MonthContributions(ts, IncomePart)), Fold(MonthContributions(ts, ExpensePart)))
  }

  /** What `new Date(year, monthIndex)` orders by: months since year 0. The
      source's constructor reads years 0-99 as 1900-1999, which is not
      modelled here. */
  function Ord(ym: YearMonth): int
  {
    ym.year * 12 + ym.month
  }

  lemma OrdInjective(a: YearMonth, b: YearMonth)
    ensures Ord(a) == Ord(b) <==> a == b
  {
    if a.year < b.year {
      assert Ord(a) < Ord(b);
    } else if b.year < a.year {
      assert Ord(b) < Ord(a);
    }
  }

  /** Insertion of one row before the first row of a later or equal month. */
  function Insert(r: MonthRow, rows: seq<MonthRow>): seq<MonthRow>
  {
    if rows == [] then [r]
    else if Ord(r.month) <= Ord(rows[0].month) then [r] + rows
    else [rows[0]] + Insert(r, rows[1..])
  }

  /** `.sort((a, b) => new Date(a...) - new Date(b...))`. */
  function SortChrono(rows: seq<MonthRow>): seq<MonthRow>
  {
    if rows == [] then [] else Insert(rows[0], SortChrono(rows[1..]))
  }

  ghost predicate Chronological(rows: seq<MonthRow>)
  {
    forall i, j :: 0 <= i < j < |rows| ==> Ord(rows[i].month) < Ord(rows[j].month)
  }

  /** Some row is labelled with the month `ym`. */
  ghost predicate HasMonth(rows: seq<MonthRow>, ym: YearMonth)
  {
    exists i :: 0 <= i < |rows| && rows[i].month == ym
  }

  ghost predicate DistinctMonths(rows: seq<MonthRow>)
  {
    forall i, j :: 0 <= i < j < |rows| ==> rows[i].month != rows[j].month
  }

  lemma {:induction false} InsertPermutes(r: MonthRow, rows: seq<MonthRow>)
    ensures multiset(Insert(r, rows)) == multiset(rows) + multiset{r}
  {
    if rows != [] && Ord(r.month) > Ord(rows[0].month) {
      InsertPermutes(r, rows[1..]);
      assert rows == [rows[0]] + rows[1..];
    }
  }

  lemma {:induction false} InsertFacts(r: MonthRow, rows: seq<MonthRow>)
    requires Chronological(rows)
    requires forall i :: 0 <= i < |rows| ==> rows[i].month != r.month
    ensures multiset(Insert(r, rows)) == multiset(rows) + multiset{r}
    ensures Chronological(Insert(r, rows))
  {
    InsertPermutes(r, rows);
    if rows != [] {
      OrdInjective(r.month, rows[0].month);
      if Ord(r.month) > Ord(rows[0].month) {
        InsertFacts(r, rows[1..]);
        InsertAfterHead(r, rows);
      }
    }
  }

  lemma {:induction false} InsertMembers(r: MonthRow, rows: seq<MonthRow>)
    ensures forall x :: x in Insert(r, rows) ==> x == r || x in rows
  {
    if rows != [] && Ord(r.month) > Ord(rows[0].month) {
      InsertMembers(r, rows[1..]);
    }
  }

  /** A row inserted after the first row leaves the first row first, before
      all the rest. */
  lemma InsertAfterHead(r: MonthRow, rows: seq<MonthRow>)
    requires rows != [] && Ord(r.month) > Ord(rows[0].month)
    requires Chronological(rows)
    requires Chronological(Insert(r, rows[1..]))
    ensures Chronological(Insert(r, rows))
  {
    var tail := rows[1..];
    var ins := Insert(r, tail);
    InsertMembers(r, tail);
    forall x | x in ins ensures Ord(rows[0].month) < Ord(x.month) {
      if x != r {
        var j :| 0 <= j < |tail| && tail[j] == x;
        assert rows[j + 1] == x;
      }
    }
    var res := [rows[0]] + ins;
    assert res == Insert(r, rows);
    forall i, j | 0 <= i < j < |res| ensures Ord(res[i].month) < Ord(res[j].month) {
      assert res[j] == ins[j - 1];
      if i > 0 {
        assert res[i] == ins[i - 1];
      } else {
        assert res[j] in ins;
      }
    }
  }

  /** A rearrangement of the rows after the first holds no row of the first
      row's month. */
  lemma OtherMonths(rows: seq<MonthRow>, s: seq<MonthRow>)
    requires rows != [] && DistinctMonths(rows)
    requires multiset(s) == multiset(rows[1..])
    ensures forall i :: 0 <= i < |s| ==> s[i].month != rows[0].month
  {
    forall i | 0 <= i < |s| ensures s[i].month != rows[0].month {
      assert s[i] in multiset(rows[1..]);
      var j :| 0 <= j < |rows| - 1 && rows[1..][j] == s[i];
      assert rows[j + 1] == s[i];
    }
  }

  /** Sorting rows of distinct months yields the same rows, each month
      strictly after the one before. */
  lemma {:induction false} SortChronoFacts(rows: seq<MonthRow>)
    requires DistinctMonths(rows)
    ensures multiset(SortChrono(rows)) == multiset(rows)
    ensures Chronological(SortChrono(rows))
  {
    if rows != [] {
      var tail := rows[1..];
      SortChronoFacts(tail);
      var s := SortChrono(tail);
      OtherMonths(rows, s);
      InsertFacts(rows[0], s);
      assert rows == [rows[0]] + tail;
    }
  }

  /** `pnlTimeData`. */
  function PnlRows(ts: seq<Transaction>): seq<MonthRow>
  {
    SortChrono(MonthRowsUnsorted(ts))
  }

  /** `monthMap` with its key order holds what the two folds hold. */
  ghost predicate Mirrors(monthMap: map<YearMonth, Bucket>, months: seq<YearMonth>, inc: Acc<YearMonth>, exp: Acc<YearMonth>)
  {
    && months == inc.order
    && (forall k :: k in monthMap <==> k in inc.totals)
    && (forall k :: k in monthMap <==> k in exp.totals)
    && (forall k | k in monthMap :: monthMap[k] == Bucket(inc.totals[k], exp.totals[k]))
    && (forall j :: 0 <= j < |months| ==> months[j] in monthMap)
  }

  /** Creating a missing bucket and adding to it keeps the mirror of the
      two folds, each given one more pair for the month. */
  lemma MirrorsStep(monthMap0: map<YearMonth, Bucket>, months0: seq<YearMonth>, inc: Acc<YearMonth>, exp: Acc<YearMonth>,
                    key: YearMonth, vi: real, ve: real, monthMap: map<YearMonth, Bucket>, months: seq<YearMonth>)
    requires Mirrors(monthMap0, months0, inc, exp)
    requires var b := if key in monthMap0 then monthMap0[key] else Bucket(0.0, 0.0);
      monthMap == monthMap0[key := Bucket(b.income + vi, b.expense + ve)]
    requires months == if key in monthMap0 then months0 else months0 + [key]
    ensures Mirrors(monthMap, months, Add(inc, key, vi), Add(exp, key, ve))
  {
  }

  /** The `forEach` callback for a transaction whose date parses: create
      the month's bucket when missing, then add to the column the
      transaction counts in. */
  method AddToMonth(monthMap: map<YearMonth, Bucket>, months: seq<YearMonth>, key: YearMonth, t: Transaction)
    returns (monthMap': map<YearMonth, Bucket>, months': seq<YearMonth>)
    ensures var b := if key in monthMap then monthMap[key] else Bucket(0.0, 0.0);
      monthMap' == monthMap[key := Bucket(b.income + Value(IncomePart, t), b.expense + Value(ExpensePart, t))]
    ensures months' == if key in monthMap then months else months + [key]
  {
    monthMap', months' := monthMap, months;
    var amount := t.amount;
    if key !in monthMap' {
      monthMap' := monthMap'[key := Bucket(0.0, 0.0)];
      months' := months' + [key];
    }
    if t.kind == Income && amount > 0.0 {
      monthMap' := monthMap'[key := monthMap'[key].(income := monthMap'[key].income + amount)];
    } else if t.kind == Expense && amount < 0.0 {
      monthMap' := monthMap'[key := monthMap'[key].(expense := monthMap'[key].expense + -amount)];
    }
  }

  /** The rows projected from a mirroring `monthMap` are the fold rows. */
  lemma MirrorsRows(monthMap: map<YearMonth, Bucket>, months: seq<YearMonth>, inc: Acc<YearMonth>, exp: Acc<YearMonth>)
    requires Mirrors(monthMap, months, inc, exp)
    ensures seq(|months|, j requires 0 <= j < |months| =>
      MonthRow(months[j], monthMap[months[j]].income, monthMap[months[j]].expense)) == FoldRows(inc, exp)
  {
  }

  /** The callback for a dated transaction keeps the mirror of the folds of
      the transactions seen so far. */
  lemma MirrorsDated(ts: seq<Transaction>, i: nat, monthMap0: map<YearMonth, Bucket>, months0: seq<YearMonth>,
                     monthMap: map<YearMonth, Bucket>, months: seq<YearMonth>)
    requires i < |ts| && ts[i].when.Some?
    requires Mirrors(monthMap0, months0, Fold(MonthContributions(ts[..i], IncomePart)),
                     Fold(MonthContributions(ts[..i], ExpensePart)))
    requires var key := ts[i].when.value;
      var b := if key in monthMap0 then monthMap0[key] else Bucket(0.0, 0.0);
      && monthMap == monthMap0[key := Bucket(b.income + Value(IncomePart, ts[i]), b.expense + Value(ExpensePart, ts[i]))]
      && months == if key in monthMap0 then months0 else months0 + [key]
    ensures Mirrors(monthMap, months, Fold(MonthContributions(ts[..i + 1], IncomePart)),
                    Fold(MonthContributions(ts[..i + 1], ExpensePart)))
  {
    var t := ts[i];
    var key := t.when.value;
    var vi, ve := Value(IncomePart, t), Value(ExpensePart, t);
    var inc := MonthContributions(ts[..i], IncomePart);
    var exp := MonthContributions(ts[..i], ExpensePart);
    MirrorsStep(monthMap0, months0, Fold(inc), Fold(exp), key, vi, ve, monthMap, months);
    assert Fold(MonthContributions(ts[..i + 1], IncomePart)) == Add(Fold(inc), key, vi) by {
      MonthContributionsStepDated(ts, IncomePart, i);
      FoldAppend(inc, (key, vi));
    }
    assert Fold(MonthContributions(ts[..i + 1], ExpensePart)) == Add(Fold(exp), key, ve) by {
      MonthContributionsStepDated(ts, ExpensePart, i);
      FoldAppend(exp, (key, ve));
    }
  }

  /** The `forEach` that fills `monthMap`, the projection of its entries and
      the chronological sort. */
  method PnlTimeData(ts: seq<Transaction>) returns (rows: seq<MonthRow>)
    ensures rows == PnlRows(ts)
  {
    var monthMap: map<YearMonth, Bucket> := map[];
    var months: seq<YearMonth> := [];
    for i := 0 to |ts|
      invariant Mirrors(monthMap, months, Fold(MonthContributions(ts[..i], IncomePart)),
                        Fold(MonthContributions(ts[..i], ExpensePart)))
    {
      var t := ts[i];
      if t.when.Some? {
        ghost var monthMap0, months0 := monthMap, months;
        monthMap, months := AddToMonth(monthMap, months, t.when.value, t);
        MirrorsDated(ts, i, monthMap0, months0, monthMap, months);
      } else {
        MonthContributionsStepUndated(ts, IncomePart, i);
        MonthContributionsStepUndated(ts, ExpensePart, i);
      }
    }
    assert ts[..|ts|] == ts;
    MirrorsRows(monthMap, months, Fold(MonthContributions(ts, IncomePart)), Fold(MonthContributions(ts, ExpensePart)));
    var unsorted := seq(|months|, j requires 0 <= j < |months| =>
      MonthRow(months[j], monthMap[months[j]].income, monthMap[months[j]].expense));
    rows := SortChrono(unsorted);
  }

  /** `map[ym] || 0` of one column's month fold is the month sum, never
      negative. */
  lemma MonthColumnValue(ts: seq<Transaction>, part: Transaction -> Option<real>, ym: YearMonth)
    requires part == IncomePart || part == ExpensePart
    ensures Get(Fold(MonthContributions(ts, part)).totals, ym) == MonthSum(ts, part, ym) >= 0.0
  {
    var cs := MonthContributions(ts, part);
    FoldFacts(cs);
    MonthContributionsFacts(ts, part);
    forall t ensures part(t).Some? ==> part(t).value > 0.0 {
      PartsPositive(t);
    }
    MonthContributionsNonNegative(ts, part);
    FoldTotalsNonNegative(cs);
    if !HasKey(cs, ym) {
      TotalAbsent(cs, ym);
    }
  }

  /** Before sorting: one row per month in which some transaction is dated,
      each with the month's sums. */
  lemma UnsortedFacts(ts: seq<Transaction>)
    ensures DistinctMonths(MonthRowsUnsorted(ts))
    ensures forall ym :: HasMonth(MonthRowsUnsorted(ts), ym) <==> DatedIn(ts, ym)
    ensures forall x | x in MonthRowsUnsorted(ts) ::
      && x.income == MonthSum(ts, IncomePart, x.month) >= 0.0
      && x.expense == MonthSum(ts, ExpensePart, x.month) >= 0.0
  {
    var ci := MonthContributions(ts, IncomePart);
    var inc := Fold(ci);
    var u := MonthRowsUnsorted(ts);
    FoldFacts(ci);
    MonthContributionsFacts(ts, IncomePart);
    forall ym ensures HasMonth(u, ym) <==> DatedIn(ts, ym) {
      if ym in inc.totals {
        var j :| 0 <= j < |inc.order| && inc.order[j] == ym;
        assert u[j].month == ym;
      }
    }
    forall x | x in u
      ensures x.income == MonthSum(ts, IncomePart, x.month) >= 0.0
      ensures x.expense == MonthSum(ts, ExpensePart, x.month) >= 0.0
    {
      MonthColumnValue(ts, IncomePart, x.month);
      MonthColumnValue(ts, ExpensePart, x.month);
    }
  }

  /** Sorting keeps exactly the rows it is given. */
  lemma SortChronoMembers(rows: seq<MonthRow>)
    requires DistinctMonths(rows)
    ensures Chronological(SortChrono(rows))
    ensures forall x :: x in SortChrono(rows) <==> x in rows
  {
    SortChronoFacts(rows);
    forall x ensures x in SortChrono(rows) <==> x in rows {
      assert x in SortChrono(rows) <==> x in multiset(SortChrono(rows));
      assert x in rows <==> x in multiset(rows);
    }
  }

  /** One bar per month in which some transaction is dated (even when none
      of them counts in either column), strictly chronological, each column
      holding the month's sum, never negative. */
  lemma PnlRowsFacts(ts: seq<Transaction>)
    ensures Chronological(PnlRows(ts))
    ensures forall ym :: HasMonth(PnlRows(ts), ym) <==> DatedIn(ts, ym)
    ensures forall i :: 0 <= i < |PnlRows(ts)| ==>
      && PnlRows(ts)[i].income == MonthSum(ts, IncomePart, PnlRows(ts)[i].month)
      && PnlRows(ts)[i].expense == MonthSum(ts, ExpensePart, PnlRows(ts)[i].month)
      && PnlRows(ts)[i].income >= 0.0 && PnlRows(ts)[i].expense >= 0.0
  {
    var u := MonthRowsUnsorted(ts);
    var rows := PnlRows(ts);
    UnsortedFacts(ts);
    SortChronoMembers(u);
    forall ym ensures HasMonth(rows, ym) <==> HasMonth(u, ym) {
      if HasMonth(u, ym) {
        var j :| 0 <= j < |u| && u[j].month == ym;
        assert u[j] in rows;
        var i :| 0 <= i < |rows| && rows[i] == u[j];
      }
      if HasMonth(rows, ym) {
        var i :| 0 <= i < |rows| && rows[i].month == ym;
        assert rows[i] in u;
        var j :| 0 <= j < |u| && u[j] == rows[i];
      }
    }
    forall i | 0 <= i < |rows| ensures rows[i] in u {
      assert rows[i] in rows;
    }
  }

  // ---------------------------------------------------------------------
  // Empty state

  /** The negation of `t.date && t.amount && t.category && t.type`: an empty
      date, category or type, or amount 0. */
  predicate Lacks(t: Transaction)
  {
    t.date == "" || t.amount == 0.0 || t.category == "" || t.kind == ""
  }

  /** The page shows the empty state when there is no transaction or some
      transaction lacks a date, category or type or has amount 0. */
  predicate ShowsEmptyState(ts: seq<Transaction>)
  {
    |ts| == 0 || exists i :: 0 <= i < |ts| && Lacks(ts[i])
  }
}
