/** The add-expense form: five text fields, each set by its own input; a
    submission with every field filled stores an expense whose amount is the
    negated magnitude of the parsed amount. */
module AddExpenseForm {
  import opened Common
  import TransactionContext

  /** The category select: what each option shows and the value it sets. */
  const CategoryOptions: seq<(string, string)> := [
    ("Select Category", ""), ("Trading Loss", "Trading Loss"), ("Bills", "Loan"),
    ("Entertainment", "Entertainment"), ("Shopping", "Shopping"), ("Health", "Health"),
    ("Education", "Education"), ("Other", "Other")]

  /** The value the first option showing `shown` sets. */
  function OptionValue(options: seq<(string, string)>, shown: string): (v: Option<string>)
    ensures v.None? <==> forall i :: 0 <= i < |options| ==> options[i].0 != shown
    ensures v.Some? ==> exists i :: 0 <= i < |options| && options[i] == (shown, v.value)
  {
    if options == [] then None
    else if options[0].0 == shown then Some(options[0].1)
    else
      var v := OptionValue(options[1..], shown);
      assert v.Some? ==> exists i :: 0 <= i < |options| && options[i] == (shown, v.value) by {
        if v.Some? {
          var i :| 0 <= i < |options[1..]| && options[1..][i] == (shown, v.value);
          assert options[i + 1] == (shown, v.value);
        }
      }
      v
  }

  /** Choosing "Bills" stores the category "Loan". */
  lemma BillsStoresLoan()
    ensures OptionValue(CategoryOptions, "Bills") == Some("Loan")
  {
  }

  /** `-Math.abs(x)`. */
  function NegativeMagnitude(x: real): (r: real)
    ensures r <= 0.0
    ensures r == x || r == -x
  {
    if x < 0.0 then x else -x
  }

  datatype Fields = Fields(date: string, source: string, amount: string, category: string, description: string)

  /** The record `handleSubmit` builds, or `None` when a field is empty;
      `parseFloat` gives `None` for NaN and `now` is `Date.now()`. */
  function NewExpense(f: Fields, parseFloat: string -> Option<real>, now: int): (d: Option<Draft>)
    ensures d.None? <==> f.date == "" || f.source == "" || f.amount == "" || f.category == "" || f.description == ""
    ensures d.Some? ==>
      && d.value.date == f.date && d.value.source == f.source && d.value.category == f.category
      && d.value.description == Some(f.description)
      && d.value.kind == Some(Expense) && d.value.stamp == Some(now)
      && d.value.amount.Num?
      && (parseFloat(f.amount).None? <==> d.value.amount.number.None?)
      && (parseFloat(f.amount).Some? ==>
            && d.value.amount.number.value <= 0.0
            && (d.value.amount.number.value == parseFloat(f.amount).value
                || d.value.amount.number.value == -parseFloat(f.amount).value))
  {
    if f.date == "" || f.source == "" || f.amount == "" || f.category == "" || f.description == "" then None
    else
      var amount := match parseFloat(f.amount) case None => None case Some(x) => Some(NegativeMagnitude(x));
      Some(Draft(f.date, f.source, Num(amount), f.category, Some(f.description), Some(Expense), Some(now)))
  }

  /** The stored amount has the magnitude of the parsed one and is never
      positive; a positive or a negative entry of the same magnitude store
      the same amount. */
  lemma SignNormalised(f: Fields, parseFloat: string -> Option<real>, now: int, x: real)
    requires NewExpense(f, parseFloat, now).Some? && parseFloat(f.amount) == Some(x)
    ensures var a := NewExpense(f, parseFloat, now).value.amount.number.value;
      a <= 0.0 && (a == x || a == -x) && a == NegativeMagnitude(-x)
  {
  }

  class ExpenseForm {
    var fields: Fields

    constructor()
      ensures fields == Fields("", "", "", "", "")
    {
      fields := Fields("", "", "", "", "");
    }

    method SetDate(value: string)
      modifies this
      ensures fields == old(fields).(date := value)
    {
      fields := fields.(date := value);
    }

    method SetSource(value: string)
      modifies this
      ensures fields == old(fields).(source := value)
    {
      fields := fields.(source := value);
    }

    method SetAmount(value: string)
      modifies this
      ensures fields == old(fields).(amount := value)
    {
      fields := fields.(amount := value);
    }

    /** The category select stores the value of the option shown as
        `shown`. */
    method SelectCategory(shown: string)
      modifies this
      ensures OptionValue(CategoryOptions, shown).Some? ==>
        fields == old(fields).(category := OptionValue(CategoryOptions, shown).value)
      ensures OptionValue(CategoryOptions, shown).None? ==> fields == old(fields)
    {
      var v := OptionValue(CategoryOptions, shown);
      if v.Some? {
        fields := fields.(category := v.value);
      }
    }

    method SetDescription(value: string)
      modifies this
      ensures fields == old(fields).(description := value)
    {
      fields := fields.(description := value);
    }

    /** `handleSubmit`: with a field empty, only the alert is raised
        (`alerted`); otherwise the expense is added to the store exactly
        once and the form closes (`closed`). */
    method HandleSubmit(store: TransactionContext.TransactionStore, parseFloat: string -> Option<real>, now: int,
                        c: Completion<ServerRecord>)
      returns (alerted: bool, closed: bool)
      modifies store
      ensures alerted <==> NewExpense(fields, parseFloat, now).None?
      ensures closed <==> !alerted
      ensures store.loading == old(store.loading) && store.error == old(store.error)
      ensures alerted ==> store.transactions == old(store.transactions)
      ensures !alerted && Settle(c).Success? ==>
        store.transactions == old(store.transactions)
          + [TransactionContext.Normalize(Settle(c).value, DraftDescription(NewExpense(fields, parseFloat, now).value))]
      ensures !alerted && Settle(c).Failure? ==> store.transactions == old(store.transactions)
    {
      var expense := NewExpense(fields, parseFloat, now);
      if expense.None? {
        return true, false;
      }
      store.Add(expense.value, c);
      return false, true;
    }
  }
}
