/** The history page: a category filter over the transaction list, handed
    to the transaction table. */
module History {
  import opened Common
  import TransactionTable

  /** `transactions.filter(t => t.category === c)`. */
  function FilterByCategory(ts: seq<Transaction>, c: string): (r: seq<Transaction>)
    ensures |r| <= |ts|
    ensures forall i :: 0 <= i < |r| ==> r[i].category == c
  {
    if ts == [] then []
    else
      var n := |ts| - 1;
      FilterByCategory(ts[..n], c) + (if ts[n].category == c then [ts[n]] else [])
  }

  /** `filteredTransactions`: the whole list when no category is chosen. */
  function Filtered(ts: seq<Transaction>, filterCategory: string): (r: seq<Transaction>)
    ensures filterCategory == "" ==> r == ts
    ensures filterCategory != "" ==> r == FilterByCategory(ts, filterCategory)
  {
    if filterCategory == "" then ts else FilterByCategory(ts, filterCategory)
  }

  /** Reference definition: `a` is `b` with some elements left out, the
      rest in their order. */
  ghost predicate Subsequence<T>(a: seq<T>, b: seq<T>)
    decreases |b|
  {
    if a == [] then true
    else if b == [] then false
    else if a[|a| - 1] == b[|b| - 1] then Subsequence(a[..|a| - 1], b[..|b| - 1])
    else Subsequence(a, b[..|b| - 1])
  }

  /** The filter keeps each transaction of the category exactly as often as
      the list holds it, and no other. */
  lemma {:induction false} FilterCounts(ts: seq<Transaction>, c: string)
    ensures forall t :: multiset(FilterByCategory(ts, c))[t] == (if t.category == c then multiset(ts)[t] else 0)
  {
    if ts != [] {
      var n := |ts| - 1;
      FilterCounts(ts[..n], c);
      assert ts == ts[..n] + [ts[n]];
    }
  }

  /** The filter keeps the relative order of what it keeps. */
  lemma {:induction false} FilterSubsequence(ts: seq<Transaction>, c: string)
    ensures Subsequence(FilterByCategory(ts, c), ts)
  {
    if ts != [] {
      var n := |ts| - 1;
      var r := FilterByCategory(ts, c);
      var pre := FilterByCategory(ts[..n], c);
      FilterSubsequence(ts[..n], c);
      if ts[n].category == c {
        assert r[..|r| - 1] == pre;
      } else if r != [] {
        assert r == pre;
        assert r[|r| - 1].category == c;
      }
    }
  }

  /** What the page displays as written: the table reads the list from the
      shared store and sorts it itself, so the filtered list it is handed
      plays no part. */
  function DisplayedAsWritten(ts: seq<Transaction>, filterCategory: string,
                              col: Option<TransactionTable.Column>, dir: TransactionTable.Direction): seq<Transaction>
  {
    TransactionTable.SortedTransactions(ts, col, dir)
  }

  /** As written, every transaction is displayed, whatever the filter. */
  lemma FilterIgnored(ts: seq<Transaction>, filterCategory: string,
                      col: Option<TransactionTable.Column>, dir: TransactionTable.Direction)
    ensures multiset(DisplayedAsWritten(ts, filterCategory, col, dir)) == multiset(ts)
  {
    TransactionTable.SortedPermutes(ts, col, dir);
  }

  /** A "Trading" transaction is still shown under the "Salary" filter. */
  lemma FilterIgnoredExample()
    ensures var t := Transaction("1", "2025-03-01", Some(YearMonth(2025, 2)), "Broker", 50.0, "Trading", "", Income);
      && Filtered([t], "Salary") == []
      && DisplayedAsWritten([t], "Salary", None, TransactionTable.Asc) == [t]
  {
    var t := Transaction("1", "2025-03-01", Some(YearMonth(2025, 2)), "Broker", 50.0, "Trading", "", Income);
    assert [t][..0] == [];
    TransactionTable.UnsortedKeepsOrder([t], TransactionTable.Asc);
  }

  /** The display the filter evidently intends: the table sorts the
      filtered list. */
  function Displayed(ts: seq<Transaction>, filterCategory: string,
                     col: Option<TransactionTable.Column>, dir: TransactionTable.Direction): seq<Transaction>
  {
    TransactionTable.SortedTransactions(Filtered(ts, filterCategory), col, dir)
  }

  /** With a category chosen, the intended display shows each transaction
      of that category as often as the list holds it, and nothing else;
      with none chosen, the whole list. */
  lemma DisplayedFollowsFilter(ts: seq<Transaction>, filterCategory: string,
                               col: Option<TransactionTable.Column>, dir: TransactionTable.Direction)
    ensures filterCategory != "" ==>
      forall t :: multiset(Displayed(ts, filterCategory, col, dir))[t] == (if t.category == filterCategory then multiset(ts)[t] else 0)
    ensures filterCategory == "" ==> multiset(Displayed(ts, filterCategory, col, dir)) == multiset(ts)
  {
    TransactionTable.SortedPermutes(Filtered(ts, filterCategory), col, dir);
    FilterCounts(ts, filterCategory);
  }
}
