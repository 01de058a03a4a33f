/** The dashboard page: the net total, the "this month" figure, the CSV
    export text and the CSV import, which submits one create request per
    complete row. The text of a number (`String(t.amount)`) is a parameter
    `show`. */
module Dashboard {
  import opened Common
  import opened Text
  import TransactionContext

  // ---------------------------------------------------------------------
  // Figures

  /** `thisMonthIncome` as written: the amounts whose date has the same short
      month name as the current date. */
  function ThisMonthIncome(ts: seq<Transaction>, current: YearMonth): real
  {
    if ts == [] then 0.0
    else
      var t := ts[|ts| - 1];
      ThisMonthIncome(ts[..|ts| - 1], current) + (if MonthLabel(t.when) == MonthLabel(Some(current)) then t.amount else 0.0)
  }

  /** Sum of the amounts dated in month `m` of any year. */
  function MonthOfAnyYearTotal(ts: seq<Transaction>, m: MonthIndex): real
  {
    if ts == [] then 0.0
    else
      var t := ts[|ts| - 1];
      MonthOfAnyYearTotal(ts[..|ts| - 1], m) + (if t.when.Some? && t.when.value.month == m then t.amount else 0.0)
  }

  /** Sum of the amounts dated in the calendar month `ym`. */
  function CalendarMonthIncome(ts: seq<Transaction>, ym: YearMonth): real
  {
    if ts == [] then 0.0
    else
      var t := ts[|ts| - 1];
      CalendarMonthIncome(ts[..|ts| - 1], ym) + (if t.when == Some(ym) then t.amount else 0.0)
  }

  /** The figure compares month names only: it sums the current month of
      every year, and never an undated transaction. */
  lemma {:induction false} ThisMonthIgnoresYear(ts: seq<Transaction>, current: YearMonth)
    ensures ThisMonthIncome(ts, current) == MonthOfAnyYearTotal(ts, current.month)
  {
    if ts != [] {
      ThisMonthIgnoresYear(ts[..|ts| - 1], current);
      MonthLabelSame(ts[|ts| - 1].when, Some(current));
    }
  }

  /** An income from October of last year counts towards "this month" in
      October of this year. */
  lemma ThisMonthCountsOtherYears()
    ensures var t := Transaction("a1", "2025-10-03", Some(YearMonth(2025, 9)), "Client", 100.0, "Freelancing", "", Income);
      && ThisMonthIncome([t], YearMonth(2026, 9)) == 100.0
      && CalendarMonthIncome([t], YearMonth(2026, 9)) == 0.0
  {
    var t := Transaction("a1", "2025-10-03", Some(YearMonth(2025, 9)), "Client", 100.0, "Freelancing", "", Income);
    assert [t][..0] == [];
    assert MonthLabel(t.when) == MonthNames[9] == MonthLabel(Some(YearMonth(2026, 9)));
  }

  /** The corrected figure counts only the current calendar month: a
      transaction dated elsewhere, or not dated, changes nothing. */
  lemma CalendarMonthOnlyCurrent(ts: seq<Transaction>, t: Transaction, current: YearMonth)
    requires t.when != Some(current)
    ensures CalendarMonthIncome(ts + [t], current) == CalendarMonthIncome(ts, current)
  {
    assert (ts + [t])[..|ts|] == ts;
  }

  /** The corrected figure counts every transaction of the current calendar
      month. */
  lemma CalendarMonthCountsCurrent(ts: seq<Transaction>, t: Transaction, current: YearMonth)
    requires t.when == Some(current)
    ensures CalendarMonthIncome(ts + [t], current) == CalendarMonthIncome(ts, current) + t.amount
  {
    assert (ts + [t])[..|ts|] == ts;
  }

  /** As long as every dated transaction is of the current year, both
      figures agree. */
  lemma {:induction false} ThisMonthAgreesWithinYear(ts: seq<Transaction>, current: YearMonth)
    requires forall i :: 0 <= i < |ts| && ts[i].when.Some? ==> ts[i].when.value.year == current.year
    ensures ThisMonthIncome(ts, current) == CalendarMonthIncome(ts, current)
  {
    if ts != [] {
      ThisMonthAgreesWithinYear(ts[..|ts| - 1], current);
      MonthLabelSame(ts[|ts| - 1].when, Some(current));
    }
  }

  // ---------------------------------------------------------------------
  // CSV export

  /** `["Date,Source,Amount,Category,Description"].join(",")`, which is the
      one string itself. */
  const CsvHeader: string := "Date,Source,Amount,Category,Description"

  /** `[t.date, t.source, t.amount, t.category, t.description]`. */
  function RowFields(t: Transaction, show: real -> string): seq<string>
  {
    [t.date, t.source, show(t.amount), t.category, t.description]
  }

  function RowText(t: Transaction, show: real -> string): string
  {
    Join(RowFields(t, show), ",")
  }

  function ExportRows(ts: seq<Transaction>, show: real -> string): (rows: seq<string>)
    ensures |rows| == |ts|
  {
    seq(|ts|, i requires 0 <= i < |ts| => RowText(ts[i], show))
  }

  /** The text of `exportTransactions`: the header line, then one line per
      transaction, joined by newlines. */
  function ExportCsv(ts: seq<Transaction>, show: real -> string): string
  {
    Join([CsvHeader] + ExportRows(ts, show), "\n")
  }

  predicate FieldsFree(t: Transaction, show: real -> string, c: char)
  {
    forall k :: 0 <= k < 5 ==> Free(RowFields(t, show)[k], c)
  }

  /** The export always begins with the header line. */
  lemma ExportStartsWithHeader(ts: seq<Transaction>, show: real -> string)
    ensures CsvHeader <= ExportCsv(ts, show)
  {
    JoinStartsWithFirst([CsvHeader] + ExportRows(ts, show), "\n");
  }

  /** When no field holds a newline, the export splits into exactly the
      header and one line per transaction: 1 + n lines and no empty line
      after the last. */
  lemma ExportLines(ts: seq<Transaction>, show: real -> string)
    requires forall i :: 0 <= i < |ts| ==> FieldsFree(ts[i], show, '\n')
    ensures Split(ExportCsv(ts, show), '\n') == [CsvHeader] + ExportRows(ts, show)
    ensures |Split(ExportCsv(ts, show), '\n')| == 1 + |ts|
  {
    var lines := [CsvHeader] + ExportRows(ts, show);
    forall i | 0 <= i < |lines| ensures Free(lines[i], '\n') {
      if i > 0 {
        JoinFree(RowFields(ts[i - 1], show), ',', '\n');
      }
    }
    SplitJoin(lines, '\n');
  }

  /** A row whose fields hold no comma splits back into its five fields. */
  lemma ExportRowPieces(t: Transaction, show: real -> string)
    requires FieldsFree(t, show, ',')
    ensures Split(RowText(t, show), ',') == RowFields(t, show)
  {
    SplitJoin(RowFields(t, show), ',');
  }

  /** No quoting: a comma inside a field yields more than five pieces. */
  lemma ExportRowCommaInField(t: Transaction, show: real -> string, k: nat)
    requires k < 5 && !Free(RowFields(t, show)[k], ',')
    ensures |Split(RowText(t, show), ',')| > 5
  {
    SplitJoinMorePieces(RowFields(t, show), ',', k);
  }

  // ---------------------------------------------------------------------
  // CSV import

  /** The i-th element of the destructured `row.split(",")`, `None` when the
      row has fewer pieces (undefined). */
  function Field(pieces: seq<string>, i: nat): Option<string>
  {
    if i < |pieces| then Some(pieces[i]) else None
  }

  /** One row of the file: kept exactly when its first four comma-separated
      fields are present and non-empty; the fifth, if any, is the
      description; later fields are dropped; the amount stays text and the
      record has no type. */
  function ParseRow(row: string): (d: Option<Draft>)
    ensures var pieces := Split(row, ',');
      d.Some? <==> |pieces| >= 4 && pieces[0] != "" && pieces[1] != "" && pieces[2] != "" && pieces[3] != ""
    ensures var pieces := Split(row, ',');
      d.Some? ==> d.value == Draft(pieces[0], pieces[1], Text(pieces[2]), pieces[3],
                                   if |pieces| >= 5 then Some(pieces[4]) else None, None, None)
  {
    var pieces := Split(row, ',');
    var date, source, amount, category, description :=
      Field(pieces, 0), Field(pieces, 1), Field(pieces, 2), Field(pieces, 3), Field(pieces, 4);
    if Truthy(date) && Truthy(source) && Truthy(amount) && Truthy(category)
    then Some(Draft(date.value, source.value, Text(amount.value), category.value, description, None, None))
    else None
  }

  /** `rows.map(parse).filter(t => t)`. */
  function ParseAll(rows: seq<string>): (ds: seq<Draft>)
    ensures |ds| <= |rows|
  {
    if rows == [] then []
    else
      ParseAll(rows[..|rows| - 1]) +
        (match ParseRow(rows[|rows| - 1]) case Some(d) => [d] case None => [])
  }

  /** Parsing works row by row and keeps the order of the rows. */
  lemma {:induction false} ParseAllAppend(a: seq<string>, b: seq<string>)
    ensures ParseAll(a + b) == ParseAll(a) + ParseAll(b)
    decreases |b|
  {
    if b == [] {
      assert a + b == a;
    } else {
      var n := |b| - 1;
      assert (a + b)[..|a + b| - 1] == a + b[..n];
      ParseAllAppend(a, b[..n]);
    }
  }

  /** One row yields its record when it is complete, nothing otherwise. */
  lemma ParseAllSingle(row: string)
    ensures ParseAll([row]) == (match ParseRow(row) case Some(d) => [d] case None => [])
  {
    assert [row][..0] == [];
  }

  /** The drafts an imported text yields: the first line is skipped. */
  function ImportRows(text: string): (ds: seq<Draft>)
    ensures |ds| <= |Split(text, '\n')| - 1
  {
    ParseAll(Split(text, '\n')[1..])
  }

  /** The first line is dropped whatever it holds. */
  lemma ImportIgnoresHeader(h1: string, h2: string, rest: string)
    requires Free(h1, '\n') && Free(h2, '\n')
    ensures ImportRows(h1 + "\n" + rest) == ImportRows(h2 + "\n" + rest)
    ensures ImportRows(h1 + "\n" + rest) == ParseAll(Split(rest, '\n'))
  {
    SplitFreePiece(h1, rest, '\n');
    SplitFreePiece(h2, rest, '\n');
    assert ([h1] + Split(rest, '\n'))[1..] == Split(rest, '\n');
    assert ([h2] + Split(rest, '\n'))[1..] == Split(rest, '\n');
  }

  /** A text of one line imports nothing. */
  lemma ImportHeaderOnly(h: string)
    requires Free(h, '\n')
    ensures ImportRows(h) == []
  {
    SplitFree(h, '\n');
  }

  /** The record a well-formed exported line comes back as. */
  function Reimported(t: Transaction, show: real -> string): Draft
  {
    Draft(t.date, t.source, Text(show(t.amount)), t.category, Some(t.description), None, None)
  }

  /** A transaction whose fields hold no comma or newline, and whose date,
      source, amount text and category are not empty. */
  predicate Exportable(t: Transaction, show: real -> string)
  {
    && FieldsFree(t, show, ',') && FieldsFree(t, show, '\n')
    && t.date != "" && t.source != "" && show(t.amount) != "" && t.category != ""
  }

  lemma {:induction false} ParseExportRows(ts: seq<Transaction>, show: real -> string)
    requires forall i :: 0 <= i < |ts| ==> Exportable(ts[i], show)
    ensures ParseAll(ExportRows(ts, show)) == seq(|ts|, i requires 0 <= i < |ts| => Reimported(ts[i], show))
  {
    if ts != [] {
      var n := |ts| - 1;
      ParseExportRows(ts[..n], show);
      assert ExportRows(ts, show)[..n] == ExportRows(ts[..n], show);
      ExportRowPieces(ts[n], show);
    }
  }

  /** Round trip: importing the export of well-formed transactions yields
      their five fields, as text, in the same order. */
  lemma ImportExport(ts: seq<Transaction>, show: real -> string)
    requires forall i :: 0 <= i < |ts| ==> Exportable(ts[i], show)
    ensures ImportRows(ExportCsv(ts, show)) == seq(|ts|, i requires 0 <= i < |ts| => Reimported(ts[i], show))
  {
    ExportLines(ts, show);
    assert ([CsvHeader] + ExportRows(ts, show))[1..] == ExportRows(ts, show);
    ParseExportRows(ts, show);
  }

  /** The records the store appends for the submitted drafts: one per
      confirmed create, in submission order. The i-th request completes as
      `respond(i)`. */
  function Confirmed(drafts: seq<Draft>, respond: nat -> Completion<ServerRecord>): (r: seq<Transaction>)
    ensures |r| <= |drafts|
  {
    if drafts == [] then []
    else
      var n := |drafts| - 1;
      Confirmed(drafts[..n], respond) +
        (match Settle(respond(n)) case Success(rec) => [TransactionContext.Normalize(rec, DraftDescription(drafts[n]))]
                                  case Failure => [])
  }

  /** One more submitted draft adds its record exactly when its request is
      confirmed. */
  lemma ConfirmedAppend(drafts: seq<Draft>, d: Draft, respond: nat -> Completion<ServerRecord>)
    ensures Settle(respond(|drafts|)).Success? ==>
      Confirmed(drafts + [d], respond) ==
      Confirmed(drafts, respond) + [TransactionContext.Normalize(Settle(respond(|drafts|)).value, DraftDescription(d))]
    ensures Settle(respond(|drafts|)).Failure? ==> Confirmed(drafts + [d], respond) == Confirmed(drafts, respond)
  {
    assert (drafts + [d])[..|drafts|] == drafts;
  }

  /** When every request is confirmed, every draft gets its record. */
  lemma {:induction false} ConfirmedAll(drafts: seq<Draft>, respond: nat -> Completion<ServerRecord>)
    requires forall i :: 0 <= i < |drafts| ==> Settle(respond(i)).Success?
    ensures |Confirmed(drafts, respond)| == |drafts|
  {
    if drafts != [] {
      ConfirmedAll(drafts[..|drafts| - 1], respond);
    }
  }

  /** `importTransactions` once the file is read: each complete row is
      submitted to `addTransaction` exactly once, in file order. */
  method ImportTransactions(store: TransactionContext.TransactionStore, text: string,
                            respond: nat -> Completion<ServerRecord>)
    returns (submitted: seq<Draft>)
    modifies store
    ensures submitted == ImportRows(text)
    ensures store.transactions == old(store.transactions) + Confirmed(submitted, respond)
    ensures store.loading == old(store.loading) && store.error == old(store.error)
  {
    var rows := Split(text, '\n')[1..];
    var newTransactions := ParseAll(rows);
    submitted := [];
    for i := 0 to |newTransactions|
      invariant submitted == newTransactions[..i]
      invariant store.transactions == old(store.transactions) + Confirmed(submitted, respond)
      invariant store.loading == old(store.loading) && store.error == old(store.error)
    {
      var data := newTransactions[i];
      store.Add(data, respond(i));
      ConfirmedAppend(submitted, data, respond);
      submitted := submitted + [data];
    }
    assert newTransactions[..|newTransactions|] == newTransactions;
  }
}
