/** Shared vocabulary of the income tracker: the transaction record as the
    server sends it and as the client keeps it, drafts sent to the server,
    the outcome of a remote call, numeric coercion and calendar months. */
module Common {

  datatype Option<+T> = None | Some(value: T)

  /** How a `fetch` call completed: the network failed, or a response
      arrived with its `ok` flag and its body, which is `None` when the body
      does not parse as JSON. */
  datatype Completion<+T> = NetworkError | Response(ok: bool, body: Option<T>)

  /** What the promise chain `then(check ok; res.json()).then(...)` delivers
      to the success handler, or `Failure` when the `catch` handler runs. */
  datatype Outcome<+T> = Success(value: T) | Failure

  /** The success handler runs only for an ok response whose body parses. */
  function Settle<T>(c: Completion<T>): (o: Outcome<T>)
    ensures o.Success? <==> c.Response? && c.ok && c.body.Some?
    ensures o.Success? ==> o.value == c.body.value
  {
    match c
    case NetworkError => Failure
    case Response(ok, body) =>
      if !ok then Failure
      else match body
        case None => Failure
        case Some(v) => Success(v)
  }

  /** `Number(x) || 0`: a raw value whose numeric conversion is NaN (`None`)
      becomes 0; any number, 0 included, stays itself. */
  function Coerce(raw: Option<real>): (r: real)
    ensures raw.None? ==> r == 0.0
    ensures raw.Some? ==> r == raw.value
  {
    match raw
    case None => 0.0
    case Some(v) => v
  }

  /** `a || b` on strings, where a missing string is the empty one. */
  function OrElse(a: string, b: string): (r: string)
    ensures a != "" ==> r == a
    ensures a == "" ==> r == b
  {
    if a != "" then a else b
  }

  /** An optional text that is present and not empty, i.e. truthy. */
  predicate Truthy(f: Option<string>)
  {
    f.Some? && f.value != ""
  }

  type MonthIndex = m: int | 0 <= m < 12

  /** A parsed calendar date, reduced to what the aggregations use. */
  datatype YearMonth = YearMonth(year: int, month: MonthIndex)

  /** Short English month names, as `toLocaleString(..., {month: "short"})`. */
  const MonthNames: seq<string> :=
    ["Jan", "Feb", "Mar", "Apr", "May", "Jun", "Jul", "Aug", "Sep", "Oct", "Nov", "Dec"]

  /** What `toLocaleString` yields for a date that does not parse. */
  const InvalidDate: string := "Invalid Date"

  /** The short month name of a date, or "Invalid Date". */
  function MonthLabel(when: Option<YearMonth>): string
  {
    match when
    case None => InvalidDate
    case Some(ym) => MonthNames[ym.month]
  }

  /** Two dates have the same short month label exactly when both parse and
      fall in the same month of the year, whatever their years, or neither
      parses. */
  lemma MonthLabelSame(a: Option<YearMonth>, b: Option<YearMonth>)
    ensures MonthLabel(a) == MonthLabel(b) <==>
      (a.None? && b.None?) || (a.Some? && b.Some? && a.value.month == b.value.month)
  {
    if a.Some? && b.Some? && a.value.month != b.value.month {
      var i, j := a.value.month, b.value.month;
      assert MonthNames[i] != MonthNames[j];
    }
  }

  const Income: string := "income"
  const Expense: string := "expense"

  /** A transaction record as the server returns it: `amount` may be any JSON
      value, given here by its numeric conversion (`None` for NaN). A missing
      string field is the empty string. `when` is what `new Date(date)`
      yields. */
  datatype ServerRecord = ServerRecord(
    id: string,
    date: string,
    when: Option<YearMonth>,
    source: string,
    amount: Option<real>,
    category: string,
    description: string,
    kind: string)

  /** A transaction as the client keeps it: the record with a numeric amount. */
  datatype Transaction = Transaction(
    id: string,
    date: string,
    when: Option<YearMonth>,
    source: string,
    amount: real,
    category: string,
    description: string,
    kind: string)

  /** The amount field of a request body: a number (`None` for NaN, which
      JSON sends as null) or text left unconverted. */
  datatype DraftAmount = Num(number: Option<real>) | Text(text: string)

  /** The body of a create or update request. Fields the body does not
      carry are `None`. */
  datatype Draft = Draft(
    date: string,
    source: string,
    amount: DraftAmount,
    category: string,
    description: Option<string>,
    kind: Option<string>,
    stamp: Option<int>)

  /** `data.description` as a string, undefined being the empty one. */
  function DraftDescription(d: Draft): (r: string)
    ensures d.description.None? ==> r == ""
    ensures d.description.Some? ==> r == d.description.value
  {
    match d.description
    case None => ""
    case Some(s) => s
  }

  /** An entry of the older local-storage income page and its charts. */
  datatype Entry = Entry(
    id: int,
    date: string,
    when: Option<YearMonth>,
    source: string,
    amount: Option<real>,
    category: string,
    description: string)

  /** Sum of the entries' amounts, a missing or non-numeric one counting as
      0 (`reduce((s, e) => s + (Number(e.amount) || 0), 0)`). */
  function EntryTotal(es: seq<Entry>): real
  {
    if es == [] then 0.0 else EntryTotal(es[..|es| - 1]) + Coerce(es[|es| - 1].amount)
  }

  lemma EntryTotalAppend(es: seq<Entry>, e: Entry)
    ensures EntryTotal(es + [e]) == EntryTotal(es) + Coerce(e.amount)
  {
    assert (es + [e])[..|es|] == es;
  }

  /** Sum of the amounts, left to right (`reduce((s, t) => s + t.amount, 0)`). */
  function TotalAmount(ts: seq<Transaction>): real
  {
    if ts == [] then 0.0 else TotalAmount(ts[..|ts| - 1]) + ts[|ts| - 1].amount
  }

  /** The total of a concatenation is the sum of the totals. */
  lemma {:induction false} TotalAmountAppend(a: seq<Transaction>, b: seq<Transaction>)
    ensures TotalAmount(a + b) == TotalAmount(a) + TotalAmount(b)
    decreases |b|
  {
    if b != [] {
      var n := |b| - 1;
      assert (a + b)[..|a + b| - 1] == a + b[..n];
      TotalAmountAppend(a, b[..n]);
    } else {
      assert a + b == a;
    }
  }

  /** Sum of the amounts of the transactions whose `type` is `kind`. */
  function TotalByType(ts: seq<Transaction>, kind: string): real
  {
    if ts == [] then 0.0
    else TotalByType(ts[..|ts| - 1], kind) + (if ts[|ts| - 1].kind == kind then ts[|ts| - 1].amount else 0.0)
  }

  /** When every transaction is an income or an expense, the sum of all
      amounts is the income total plus the (negative) expense total. */
  lemma {:induction false} TotalIsIncomePlusExpense(ts: seq<Transaction>)
    requires forall i :: 0 <= i < |ts| ==> ts[i].kind == Income || ts[i].kind == Expense
    ensures TotalAmount(ts) == TotalByType(ts, Income) + TotalByType(ts, Expense)
  {
    if ts != [] {
      TotalIsIncomePlusExpense(ts[..|ts| - 1]);
    }
  }
}
