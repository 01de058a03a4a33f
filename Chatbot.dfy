/** The chat assistant: a log of user and bot messages, and the keyword
    classifier that answers a query from the transaction list with simple
    statistics. */
module Chatbot {
  import opened Common
  import opened Text
  import opened Grouping
  import opened Analytics

  // ---------------------------------------------------------------------
  // Statistics over all amounts, whatever their type

  /** `Math.max(...amounts)` on a non-empty list. */
  function Highest(ts: seq<Transaction>): (m: real)
    requires |ts| > 0
    ensures forall i :: 0 <= i < |ts| ==> ts[i].amount <= m
    ensures exists i :: 0 <= i < |ts| && ts[i].amount == m
  {
    var n := |ts| - 1;
    if n == 0 then ts[0].amount
    else
      var m := Highest(ts[..n]);
      assert forall i :: 0 <= i < n ==> ts[..n][i] == ts[i];
      if ts[n].amount > m then ts[n].amount else m
  }

  /** `Math.min(...amounts)` on a non-empty list. */
  function Lowest(ts: seq<Transaction>): (m: real)
    requires |ts| > 0
    ensures forall i :: 0 <= i < |ts| ==> m <= ts[i].amount
    ensures exists i :: 0 <= i < |ts| && ts[i].amount == m
  {
    var n := |ts| - 1;
    if n == 0 then ts[0].amount
    else
      var m := Lowest(ts[..n]);
      assert forall i :: 0 <= i < n ==> ts[..n][i] == ts[i];
      if ts[n].amount < m then ts[n].amount else m
  }

  /** `getTotalIncome() / transactionsData.length`. */
  function Average(ts: seq<Transaction>): real
    requires |ts| > 0
  {
    TotalAmount(ts) / (|ts| as real)
  }

  /** A bound below every amount bounds the total by its multiple. */
  lemma {:induction false} TotalAtLeast(ts: seq<Transaction>, lo: real)
    requires forall i :: 0 <= i < |ts| ==> lo <= ts[i].amount
    ensures lo * (|ts| as real) <= TotalAmount(ts)
  {
    if ts != [] {
      var n := |ts| - 1;
      assert forall i :: 0 <= i < n ==> ts[..n][i] == ts[i];
      TotalAtLeast(ts[..n], lo);
    }
  }

  lemma {:induction false} TotalAtMost(ts: seq<Transaction>, hi: real)
    requires forall i :: 0 <= i < |ts| ==> ts[i].amount <= hi
    ensures TotalAmount(ts) <= hi * (|ts| as real)
  {
    if ts != [] {
      var n := |ts| - 1;
      assert forall i :: 0 <= i < n ==> ts[..n][i] == ts[i];
      TotalAtMost(ts[..n], hi);
    }
  }

  /** A value between two multiples of a positive count, divided by the
      count, lies between the factors. */
  lemma DivideBounds(total: real, n: real, lo: real, hi: real)
    requires n > 0.0 && lo * n <= total <= hi * n
    ensures lo <= total / n <= hi
  {
  }

  lemma AverageTimesCount(ts: seq<Transaction>)
    requires |ts| > 0
    ensures Average(ts) * (|ts| as real) == TotalAmount(ts)
  {
  }

  /** A bound below every amount is a bound below the average. */
  lemma AverageAtLeast(ts: seq<Transaction>, lo: real)
    requires |ts| > 0
    requires forall i :: 0 <= i < |ts| ==> lo <= ts[i].amount
    ensures lo <= Average(ts)
  {
    var total := TotalAmount(ts);
    TotalAtLeast(ts, lo);
    DivideBounds(total, |ts| as real, lo, total / (|ts| as real));
  }

  /** A bound above every amount is a bound above the average. */
  lemma AverageAtMost(ts: seq<Transaction>, hi: real)
    requires |ts| > 0
    requires forall i :: 0 <= i < |ts| ==> ts[i].amount <= hi
    ensures Average(ts) <= hi
  {
    var total := TotalAmount(ts);
    TotalAtMost(ts, hi);
    DivideBounds(total, |ts| as real, total / (|ts| as real), hi);
  }

  /** The average lies between the lowest and the highest amount. */
  lemma AverageBetween(ts: seq<Transaction>)
    requires |ts| > 0
    ensures Lowest(ts) <= Average(ts) <= Highest(ts)
  {
    AverageAtLeast(ts, Lowest(ts));
    AverageAtMost(ts, Highest(ts));
  }

  // ---------------------------------------------------------------------
  // Income by category

  /** What `getIncomeByCategory` adds for a transaction: its amount when it
      is positive, under its category or "Other". */
  function PositivePart(t: Transaction): Option<real>
  {
    if t.amount > 0.0 then Some(t.amount) else None
  }

  /** The per-category totals `getIncomeByCategory` lists, in first-seen
      order. */
  function CategoryTotals(ts: seq<Transaction>): (es: seq<(string, real)>)
  {
    FoldSum(Contributions(ts, PositivePart));
    Entries(Fold(Contributions(ts, PositivePart)))
  }

  /** The `forEach` that fills `categoryMap`, then `Object.entries`. */
  method IncomeByCategory(ts: seq<Transaction>) returns (entries: seq<(string, real)>)
    ensures entries == CategoryTotals(ts)
  {
    var categoryMap: Acc<string> := Empty();
    for i := 0 to |ts|
      invariant categoryMap == Fold(Contributions(ts[..i], PositivePart))
    {
      var t := ts[i];
      var amount := t.amount;
      if amount > 0.0 {
        var category := OrElse(t.category, "Other");
        ContributionsStepSome(ts, PositivePart, i);
        FoldAppend(Contributions(ts[..i], PositivePart), (category, amount));
        categoryMap := Add(categoryMap, category, amount);
      } else {
        ContributionsStepNone(ts, PositivePart, i);
      }
    }
    assert ts[..|ts|] == ts;
    FoldSum(Contributions(ts, PositivePart));
    entries := Entries(categoryMap);
  }

  ghost predicate ListsCategory(es: seq<(string, real)>, c: string)
  {
    exists k :: 0 <= k < |es| && es[k].0 == c
  }

  /** A category is listed exactly when some positive amount carries it (a
      missing category counting as "Other"), and no category is listed
      twice. */
  lemma CategoryTotalsKeys(ts: seq<Transaction>)
    ensures var es := CategoryTotals(ts);
      && (forall c :: ListsCategory(es, c) <==> exists i :: 0 <= i < |ts| && ts[i].amount > 0.0 && CategoryOf(ts[i]) == c)
      && (forall k, l :: 0 <= k < l < |es| ==> es[k].0 != es[l].0)
  {
    var cs := Contributions(ts, PositivePart);
    var es := CategoryTotals(ts);
    FoldFacts(cs);
    ContributionsFacts(ts, PositivePart);
    forall c ensures ListsCategory(es, c) <==> Contributes(ts, PositivePart, c) {
      if ListsCategory(es, c) {
        var k :| 0 <= k < |es| && es[k].0 == c;
        assert Fold(cs).order[k] == c;
      }
      if Contributes(ts, PositivePart, c) {
        assert c in Fold(cs).totals;
        var k :| 0 <= k < |Fold(cs).order| && Fold(cs).order[k] == c;
        assert es[k].0 == c;
      }
    }
  }

  /** A listed category carries the sum of the positive amounts under it,
      which is positive; and the listed values add up to the sum of all
      positive amounts. */
  lemma CategoryTotalsValues(ts: seq<Transaction>)
    ensures var es := CategoryTotals(ts);
      && (forall k :: 0 <= k < |es| ==> es[k].1 == CategorySum(ts, PositivePart, es[k].0) && es[k].1 > 0.0)
      && Sum(es) == ColumnTotal(ts, PositivePart)
  {
    var cs := Contributions(ts, PositivePart);
    var es := CategoryTotals(ts);
    FoldFacts(cs);
    FoldSum(cs);
    ContributionsFacts(ts, PositivePart);
    ContributionsPositive(ts, PositivePart);
    forall k | 0 <= k < |es| ensures es[k].1 == CategorySum(ts, PositivePart, es[k].0) && es[k].1 > 0.0 {
      assert es[k].0 in Fold(cs).totals;
      PositiveTotal(cs, es[k].0);
    }
  }

  /** With positive values, a key that occurs has a positive total. */
  lemma {:induction false} PositiveTotal(ps: seq<(string, real)>, c: string)
    requires forall i :: 0 <= i < |ps| ==> ps[i].1 > 0.0
    requires HasKey(ps, c)
    ensures Total(ps, c) > 0.0
  {
    var n := |ps| - 1;
    HasKeyLast(ps, c);
    if HasKey(ps[..n], c) {
      PositiveTotal(ps[..n], c);
    } else {
      TotalAbsent(ps[..n], c);
    }
    FoldTotalsNonNegative(ps[..n]);
    TotalNonNegative(ps[..n], c);
  }

  lemma {:induction false} TotalNonNegative(ps: seq<(string, real)>, c: string)
    requires forall i :: 0 <= i < |ps| ==> ps[i].1 > 0.0
    ensures Total(ps, c) >= 0.0
  {
    if ps != [] {
      TotalNonNegative(ps[..|ps| - 1], c);
    }
  }

  // ---------------------------------------------------------------------
  // The classifier

  datatype Reply =
    | StillLoading
    | LoadFailed
    | NoTransactions
    | Greeting
    | TotalIncome(total: real)
    | HighestIncome(highest: real)
    | LowestIncome(lowest: real)
    | AverageIncome(average: real)
    | ByCategory(categories: seq<(string, real)>)
    | AllTransactions(listed: seq<Transaction>)
    | Thanks
    | Help

  /** The transaction data can be analysed: loaded, without error, not
      empty. */
  predicate Ready(ts: seq<Transaction>, loading: bool, error: Option<string>)
  {
    !loading && !Truthy(error) && |ts| > 0
  }

  /** Every phrase the classifier reacts to. */
  const Keywords: seq<string> := ["hello", "hi", "total income", "highest income", "lowest income",
    "average income", "income by category", "all transactions", "thank you", "thanks"]

  ghost predicate AnyKeyword(q: string)
  {
    exists k :: 0 <= k < |Keywords| && Contains(q, Keywords[k])
  }

  /** `getBotResponse`: the state replies first, then the keyword branches
      tried in order on the lower-cased query, then the help text. */
  function BotReply(query: string, ts: seq<Transaction>, loading: bool, error: Option<string>): (r: Reply)
    ensures loading ==> r == StillLoading
    ensures !loading && Truthy(error) ==> r == LoadFailed
    ensures !loading && !Truthy(error) && |ts| == 0 ==> r == NoTransactions
    ensures r.TotalIncome? ==> r.total == TotalAmount(ts)
    ensures r.HighestIncome? ==> |ts| > 0 && r.highest == Highest(ts)
    ensures r.LowestIncome? ==> |ts| > 0 && r.lowest == Lowest(ts)
    ensures r.AverageIncome? ==> |ts| > 0 && r.average * (|ts| as real) == TotalAmount(ts)
    ensures r.ByCategory? ==> r.categories == CategoryTotals(ts)
    ensures r.AllTransactions? ==> r.listed == ts
  {
    var q := ToLower(query);
    if loading then StillLoading
    else if Truthy(error) then LoadFailed
    else if |ts| == 0 then NoTransactions
    else if Contains(q, "hello") || Contains(q, "hi") then Greeting
    else if Contains(q, "total income") then TotalIncome(TotalAmount(ts))
    else if Contains(q, "highest income") then HighestIncome(Highest(ts))
    else if Contains(q, "lowest income") then LowestIncome(Lowest(ts))
    else if Contains(q, "average income") then (AverageTimesCount(ts); AverageIncome(Average(ts)))
    else if Contains(q, "income by category") then ByCategory(CategoryTotals(ts))
    else if Contains(q, "all transactions") then AllTransactions(ts)
    else if Contains(q, "thank you") || Contains(q, "thanks") then Thanks
    else Help
  }

  /** Any query that mentions "hello" or "hi" in any letter case gets the
      greeting once the data is ready. */
  lemma GreetingFirst(query: string, ts: seq<Transaction>, loading: bool, error: Option<string>)
    requires Ready(ts, loading, error)
    requires Contains(ToLower(query), "hello") || Contains(ToLower(query), "hi")
    ensures BotReply(query, ts, loading, error) == Greeting
  {
  }

  /** The help text is the answer exactly when the data is ready and the
      query mentions none of the phrases. */
  lemma HelpExactlyWhenUnmatched(query: string, ts: seq<Transaction>, loading: bool, error: Option<string>)
    ensures BotReply(query, ts, loading, error) == Help <==> Ready(ts, loading, error) && !AnyKeyword(ToLower(query))
  {
    var q := ToLower(query);
    if AnyKeyword(q) {
      var k :| 0 <= k < |Keywords| && Contains(q, Keywords[k]);
      assert || Keywords[k] == "hello" || Keywords[k] == "hi" || Keywords[k] == "total income"
             || Keywords[k] == "highest income" || Keywords[k] == "lowest income"
             || Keywords[k] == "average income" || Keywords[k] == "income by category"
             || Keywords[k] == "all transactions" || Keywords[k] == "thank you" || Keywords[k] == "thanks";
    } else {
      assert forall k :: 0 <= k < |Keywords| ==> !Contains(q, Keywords[k]);
      assert !Contains(q, Keywords[0]) && !Contains(q, Keywords[1]) && !Contains(q, Keywords[2]);
      assert !Contains(q, Keywords[3]) && !Contains(q, Keywords[4]) && !Contains(q, Keywords[5]);
      assert !Contains(q, Keywords[6]) && !Contains(q, Keywords[7]) && !Contains(q, Keywords[8]);
      assert !Contains(q, Keywords[9]);
    }
  }

  /** Whatever contains "highest income" contains "hi". */
  lemma HighestContainsHi(q: string)
    requires Contains(q, "highest income")
    ensures Contains(q, "hi")
  {
    ContainsPrefix(q, "highest income", "hi");
  }

  /** As written, no query is ever answered with the highest amount: the
      greeting test on "hi" catches every query that mentions "highest
      income" first. */
  lemma HighestUnreachable(query: string, ts: seq<Transaction>, loading: bool, error: Option<string>)
    ensures !BotReply(query, ts, loading, error).HighestIncome?
  {
    var q := ToLower(query);
    if Contains(q, "highest income") {
      HighestContainsHi(q);
    }
  }

  /** The question "highest income" itself gets the greeting. */
  lemma HighestQuestionGreeted(ts: seq<Transaction>)
    requires |ts| > 0
    ensures BotReply("highest income", ts, false, None) == Greeting
  {
    var q := ToLower("highest income");
    assert q == "highest income";
    assert OccursAt(q, "hi", 0);
  }

  /** The classifier with the analysis phrases tried before the greeting,
      so that a query mentioning "highest income" is answered. */
  function IntendedReply(query: string, ts: seq<Transaction>, loading: bool, error: Option<string>): (r: Reply)
    ensures loading ==> r == StillLoading
    ensures !loading && Truthy(error) ==> r == LoadFailed
    ensures !loading && !Truthy(error) && |ts| == 0 ==> r == NoTransactions
    ensures r.TotalIncome? ==> r.total == TotalAmount(ts)
    ensures r.HighestIncome? ==> |ts| > 0 && r.highest == Highest(ts)
    ensures r.LowestIncome? ==> |ts| > 0 && r.lowest == Lowest(ts)
    ensures r.AverageIncome? ==> |ts| > 0 && r.average * (|ts| as real) == TotalAmount(ts)
    ensures r.ByCategory? ==> r.categories == CategoryTotals(ts)
    ensures r.AllTransactions? ==> r.listed == ts
  {
    var q := ToLower(query);
    if loading then StillLoading
    else if Truthy(error) then LoadFailed
    else if |ts| == 0 then NoTransactions
    else if Contains(q, "total income") then TotalIncome(TotalAmount(ts))
    else if Contains(q, "highest income") then HighestIncome(Highest(ts))
    else if Contains(q, "lowest income") then LowestIncome(Lowest(ts))
    else if Contains(q, "average income") then (AverageTimesCount(ts); AverageIncome(Average(ts)))
    else if Contains(q, "income by category") then ByCategory(CategoryTotals(ts))
    else if Contains(q, "all transactions") then AllTransactions(ts)
    else if Contains(q, "hello") || Contains(q, "hi") then Greeting
    else if Contains(q, "thank you") || Contains(q, "thanks") then Thanks
    else Help
  }

  /** With the intended order, a query about the highest income that does
      not also ask for the total is answered with an amount at least as
      large as every amount, and one of them. */
  lemma IntendedAnswersHighest(query: string, ts: seq<Transaction>, loading: bool, error: Option<string>)
    requires Ready(ts, loading, error)
    requires Contains(ToLower(query), "highest income") && !Contains(ToLower(query), "total income")
    ensures IntendedReply(query, ts, loading, error) == HighestIncome(Highest(ts))
    ensures var m := IntendedReply(query, ts, loading, error).highest;
      (forall i :: 0 <= i < |ts| ==> ts[i].amount <= m) && exists i :: 0 <= i < |ts| && ts[i].amount == m
  {
  }

  lemma LowerHighestQuestion()
    ensures ToLower("highest income") == "highest income"
  {
  }

  lemma HighestQuestionNoTotal()
    ensures !Contains("highest income", "total income")
  {
    var q := "highest income";
    assert |q| - |"total income"| == 2;
    forall i | 0 <= i <= 2 ensures !OccursAt(q, "total income", i) {
      assert q[i..i + 12][0] == q[i] != 't';
    }
  }

  /** The intended order answers the question "highest income" itself, in
      any letter case. */
  lemma IntendedHighestQuestion(query: string, ts: seq<Transaction>)
    requires |ts| > 0 && ToLower(query) == "highest income"
    ensures IntendedReply(query, ts, false, None) == HighestIncome(Highest(ts))
  {
    var q := ToLower(query);
    assert !Contains(q, "total income") by {
      HighestQuestionNoTotal();
    }
    assert Contains(q, "highest income") by {
      assert OccursAt("highest income", "highest income", 0);
    }
    IntendedAnswersHighest(query, ts, false, None);
  }

  // ---------------------------------------------------------------------
  // The order of the keyword tests

  /** What a query can ask about: one topic per group of phrases. */
  datatype Topic = Greet | AskTotal | AskHighest | AskLowest | AskAverage | AskByCategory | AskAll | Thank

  /** The lower-cased query mentions one of the topic's phrases. */
  predicate Mentions(q: string, t: Topic)
  {
    match t
    case Greet => Contains(q, "hello") || Contains(q, "hi")
    case AskTotal => Contains(q, "total income")
    case AskHighest => Contains(q, "highest income")
    case AskLowest => Contains(q, "lowest income")
    case AskAverage => Contains(q, "average income")
    case AskByCategory => Contains(q, "income by category")
    case AskAll => Contains(q, "all transactions")
    case Thank => Contains(q, "thank you") || Contains(q, "thanks")
  }

  /** The order in which `getBotResponse` tries the topics. */
  const AsWrittenOrder: seq<Topic> := [Greet, AskTotal, AskHighest, AskLowest, AskAverage, AskByCategory, AskAll, Thank]

  /** The corrected order: the analysis topics before the greeting. */
  const IntendedOrder: seq<Topic> := [AskTotal, AskHighest, AskLowest, AskAverage, AskByCategory, AskAll, Greet, Thank]

  /** The first topic of `order` the query mentions, if any. */
  function FirstTopic(q: string, order: seq<Topic>): (r: Option<Topic>)
    ensures r.Some? ==> Mentions(q, r.value) && r.value in order
  {
    if order == [] then None
    else if Mentions(q, order[0]) then Some(order[0])
    else FirstTopic(q, order[1..])
  }

  /** When the query mentions none of the first `k` topics of `order`, the
      result is the topic at position `k` if the query mentions it, and
      nothing once every topic has been passed over. */
  lemma {:induction false} FirstTopicSkips(q: string, order: seq<Topic>, k: nat)
    requires k <= |order|
    requires forall j :: 0 <= j < k ==> !Mentions(q, order[j])
    ensures k < |order| && Mentions(q, order[k]) ==> FirstTopic(q, order) == Some(order[k])
    ensures k == |order| ==> FirstTopic(q, order) == None
  {
    if k > 0 {
      var rest := order[1..];
      assert forall j :: 0 <= j < k - 1 ==> rest[j] == order[j + 1];
      FirstTopicSkips(q, rest, k - 1);
    }
  }

  /** The answer to a topic, on a non-empty list. */
  function Answer(t: Topic, ts: seq<Transaction>): Reply
    requires |ts| > 0
  {
    match t
    case Greet => Greeting
    case AskTotal => TotalIncome(TotalAmount(ts))
    case AskHighest => HighestIncome(Highest(ts))
    case AskLowest => LowestIncome(Lowest(ts))
    case AskAverage => AverageIncome(Average(ts))
    case AskByCategory => ByCategory(CategoryTotals(ts))
    case AskAll => AllTransactions(ts)
    case Thank => Thanks
  }

  /** The answer to the first topic found, or the help text. */
  function Respond(first: Option<Topic>, ts: seq<Transaction>): Reply
    requires |ts| > 0
  {
    match first
    case None => Help
    case Some(t) => Answer(t, ts)
  }

  /** Once the data is ready, the classifier as written answers the first
      topic the query mentions in the order greeting, total, highest,
      lowest, average, by category, all transactions, thanks; and the help
      text when it mentions none. */
  lemma BotReplyOrder(query: string, ts: seq<Transaction>, loading: bool, error: Option<string>)
    requires Ready(ts, loading, error)
    ensures BotReply(query, ts, loading, error) == Respond(FirstTopic(ToLower(query), AsWrittenOrder), ts)
  {
    var q, r, first := ToLower(query), BotReply(query, ts, loading, error), FirstTopic(ToLower(query), AsWrittenOrder);
    if Mentions(q, Greet) {
      assert r == Answer(Greet, ts);
      assert first == Some(Greet) by { FirstTopicSkips(q, AsWrittenOrder, 0); }
    } else if Mentions(q, AskTotal) {
      assert r == Answer(AskTotal, ts);
      assert first == Some(AskTotal) by { FirstTopicSkips(q, AsWrittenOrder, 1); }
    } else if Mentions(q, AskHighest) {
      assert r == Answer(AskHighest, ts);
      assert first == Some(AskHighest) by { FirstTopicSkips(q, AsWrittenOrder, 2); }
    } else if Mentions(q, AskLowest) {
      assert r == Answer(AskLowest, ts);
      assert first == Some(AskLowest) by { FirstTopicSkips(q, AsWrittenOrder, 3); }
    } else {
      BotReplyOrderLate(query, ts, loading, error);
    }
  }

  /** `BotReplyOrder` for a query that mentions none of the first four
      topics. */
  lemma BotReplyOrderLate(query: string, ts: seq<Transaction>, loading: bool, error: Option<string>)
    requires Ready(ts, loading, error)
    requires !Mentions(ToLower(query), Greet)
    requires !Mentions(ToLower(query), AskTotal)
    requires !Mentions(ToLower(query), AskHighest)
    requires !Mentions(ToLower(query), AskLowest)
    ensures BotReply(query, ts, loading, error) == Respond(FirstTopic(ToLower(query), AsWrittenOrder), ts)
  {
    var q, r, first := ToLower(query), BotReply(query, ts, loading, error), FirstTopic(ToLower(query), AsWrittenOrder);
    if Mentions(q, AskAverage) {
      assert r == Answer(AskAverage, ts);
      assert first == Some(AskAverage) by { FirstTopicSkips(q, AsWrittenOrder, 4); }
    } else if Mentions(q, AskByCategory) {
      assert r == Answer(AskByCategory, ts);
      assert first == Some(AskByCategory) by { FirstTopicSkips(q, AsWrittenOrder, 5); }
    } else if Mentions(q, AskAll) {
      assert r == Answer(AskAll, ts);
      assert first == Some(AskAll) by { FirstTopicSkips(q, AsWrittenOrder, 6); }
    } else if Mentions(q, Thank) {
      assert r == Answer(Thank, ts);
      assert first == Some(Thank) by { FirstTopicSkips(q, AsWrittenOrder, 7); }
    } else {
      assert r == Help;
      assert first == None by { FirstTopicSkips(q, AsWrittenOrder, 8); }
    }
  }

  /** Once the data is ready, the corrected classifier answers the first
      topic the query mentions in the order total, highest, lowest,
      average, by category, all transactions, greeting, thanks; and the
      help text when it mentions none. */
  lemma IntendedReplyOrder(query: string, ts: seq<Transaction>, loading: bool, error: Option<string>)
    requires Ready(ts, loading, error)
    ensures IntendedReply(query, ts, loading, error) == Respond(FirstTopic(ToLower(query), IntendedOrder), ts)
  {
    var q, r, first := ToLower(query), IntendedReply(query, ts, loading, error), FirstTopic(ToLower(query), IntendedOrder);
    if Mentions(q, AskTotal) {
      assert r == Answer(AskTotal, ts);
      assert first == Some(AskTotal) by { FirstTopicSkips(q, IntendedOrder, 0); }
    } else if Mentions(q, AskHighest) {
      assert r == Answer(AskHighest, ts);
      assert first == Some(AskHighest) by { FirstTopicSkips(q, IntendedOrder, 1); }
    } else if Mentions(q, AskLowest) {
      assert r == Answer(AskLowest, ts);
      assert first == Some(AskLowest) by { FirstTopicSkips(q, IntendedOrder, 2); }
    } else {
      IntendedReplyOrderMiddle(query, ts, loading, error);
    }
  }

  /** `IntendedReplyOrder` for a query that mentions none of the first
      three topics. */
  lemma IntendedReplyOrderMiddle(query: string, ts: seq<Transaction>, loading: bool, error: Option<string>)
    requires Ready(ts, loading, error)
    requires !Mentions(ToLower(query), AskTotal)
    requires !Mentions(ToLower(query), AskHighest)
    requires !Mentions(ToLower(query), AskLowest)
    ensures IntendedReply(query, ts, loading, error) == Respond(FirstTopic(ToLower(query), IntendedOrder), ts)
  {
    var q, r, first := ToLower(query), IntendedReply(query, ts, loading, error), FirstTopic(ToLower(query), IntendedOrder);
    if Mentions(q, AskAverage) {
      assert r == Answer(AskAverage, ts);
      assert first == Some(AskAverage) by { FirstTopicSkips(q, IntendedOrder, 3); }
    } else if Mentions(q, AskByCategory) {
      assert r == Answer(AskByCategory, ts);
      assert first == Some(AskByCategory) by { FirstTopicSkips(q, IntendedOrder, 4); }
    } else if Mentions(q, AskAll) {
      assert r == Answer(AskAll, ts);
      assert first == Some(AskAll) by { FirstTopicSkips(q, IntendedOrder, 5); }
    } else {
      IntendedReplyOrderLate(query, ts, loading, error);
    }
  }

  /** `IntendedReplyOrder` for a query that mentions none of the first
      six topics. */
  lemma IntendedReplyOrderLate(query: string, ts: seq<Transaction>, loading: bool, error: Option<string>)
    requires Ready(ts, loading, error)
    requires !Mentions(ToLower(query), AskTotal)
    requires !Mentions(ToLower(query), AskHighest)
    requires !Mentions(ToLower(query), AskLowest)
    requires !Mentions(ToLower(query), AskAverage)
    requires !Mentions(ToLower(query), AskByCategory)
    requires !Mentions(ToLower(query), AskAll)
    ensures IntendedReply(query, ts, loading, error) == Respond(FirstTopic(ToLower(query), IntendedOrder), ts)
  {
    var q, r, first := ToLower(query), IntendedReply(query, ts, loading, error), FirstTopic(ToLower(query), IntendedOrder);
    if Mentions(q, Greet) {
      assert r == Answer(Greet, ts);
      assert first == Some(Greet) by { FirstTopicSkips(q, IntendedOrder, 6); }
    } else if Mentions(q, Thank) {
      assert r == Answer(Thank, ts);
      assert first == Some(Thank) by { FirstTopicSkips(q, IntendedOrder, 7); }
    } else {
      assert r == Help;
      assert first == None by { FirstTopicSkips(q, IntendedOrder, 8); }
    }
  }

  // ---------------------------------------------------------------------
  // Reply text

  const LoadingText: string := "I'm still loading your transaction data. Please wait a moment."
  const ErrorText: string := "I'm having trouble accessing your transaction data. Please check your connection."
  const EmptyText: string := "You don't have any transactions yet. Add some to get insights!"
  const GreetingText: string := "Hello! How can I help you with your income data today?"
  const ThanksText: string := "You're welcome! Let me know if you have more questions."
  const HelpText: string := "I can help you with questions about your total income, highest/lowest/average income, income by category, or list all transactions. What would you like to know?"

  /** The text of a reply; `money` is `toFixed(2)` and `localeDate` is
      `new Date(d).toLocaleDateString()`. */
  function ReplyText(r: Reply, money: real -> string, localeDate: string -> string): string
  {
    match r
    case StillLoading => LoadingText
    case LoadFailed => ErrorText
    case NoTransactions => EmptyText
    case Greeting => GreetingText
    case TotalIncome(v) => "Your total recorded income is ₹" + money(v) + "."
    case HighestIncome(v) => "Your highest single income amount is ₹" + money(v) + "."
    case LowestIncome(v) => "Your lowest single income amount is ₹" + money(v) + "."
    case AverageIncome(v) => "Your average income per transaction is ₹" + money(v) + "."
    case ByCategory(es) =>
      "Here's your income by category: "
      + Join(seq(|es|, i requires 0 <= i < |es| => es[i].0 + ": ₹" + money(es[i].1)), ", ") + "."
    case AllTransactions(ts) =>
      "Here are all your transactions: "
      + Join(seq(|ts|, i requires 0 <= i < |ts| =>
          ts[i].description + " (₹" + money(ts[i].amount) + ") on " + localeDate(ts[i].date)), "; ") + "."
    case Thanks => ThanksText
    case Help => HelpText
  }

  // ---------------------------------------------------------------------
  // The message log

  datatype Sender = User | Bot

  datatype Message = Message(sender: Sender, text: string)

  /** The log is a run of exchanges: a user message, then the bot's
      reply. */
  ghost predicate Exchanges(ms: seq<Message>)
  {
    && |ms| % 2 == 0
    && forall i :: 0 <= i < |ms| ==> ms[i].sender == (if i % 2 == 0 then User else Bot)
  }

  class Chat {
    var isOpen: bool
    var messages: seq<Message>
    var input: string

    constructor()
      ensures !isOpen && messages == [] && input == ""
      ensures Exchanges(messages)
    {
      isOpen := false;
      messages := [];
      input := "";
    }

    /** The toggle button. */
    method Toggle()
      modifies this
      ensures isOpen == !old(isOpen)
      ensures messages == old(messages) && input == old(input)
    {
      isOpen := !isOpen;
    }

    /** The close button in the chat window's header. */
    method Close()
      modifies this
      ensures !isOpen
      ensures messages == old(messages) && input == old(input)
    {
      isOpen := false;
    }

    /** Typing into the input field. */
    method SetInput(text: string)
      modifies this
      ensures input == text
      ensures isOpen == old(isOpen) && messages == old(messages)
    {
      input := text;
    }

    /** `handleSendMessage`: a blank input changes nothing; otherwise the
        user's message and then the bot's reply to it are appended, and the
        input is cleared. */
    method HandleSendMessage(ts: seq<Transaction>, loading: bool, error: Option<string>,
                             money: real -> string, localeDate: string -> string)
      modifies this
      ensures isOpen == old(isOpen)
      ensures IsBlank(old(input)) ==> messages == old(messages) && input == old(input)
      ensures !IsBlank(old(input)) ==>
        && messages == old(messages) + [Message(User, old(input)),
             Message(Bot, ReplyText(BotReply(old(input), ts, loading, error), money, localeDate))]
        && input == ""
      ensures Exchanges(old(messages)) ==> Exchanges(messages)
    {
      if IsBlank(input) {
        return;
      }
      var query := input;
      messages := messages + [Message(User, query)];
      input := "";
      var reply := ReplyText(BotReply(query, ts, loading, error), money, localeDate);
      messages := messages + [Message(Bot, reply)];
    }
  }
}
