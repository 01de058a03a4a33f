/** The add-income form: five text fields and an error line; submitting
    validates the fields in two steps and hands a record with a numeric
    amount to its `onAdd` callback. */
module AddIncomeForm {
  import opened Common

  const AllFieldsRequired: string := "All fields are required."
  const AmountMustBePositive: string := "Amount must be a positive number."

  /** The category choices; the first is the initial one. */
  const Categories: seq<string> := ["Freelancing", "Trading", "Salary", "Gigs", "Other"]

  datatype FieldName = DateField | SourceField | AmountField | CategoryField | DescriptionField

  datatype FormData = FormData(date: string, source: string, amount: string, category: string, description: string)

  const InitialData: FormData := FormData("", "", "", Categories[0], "")

  function FieldOf(d: FormData, name: FieldName): string
  {
    match name
    case DateField => d.date
    case SourceField => d.source
    case AmountField => d.amount
    case CategoryField => d.category
    case DescriptionField => d.description
  }

  /** `{ ...prev, [name]: value }`: the named field takes the value and the
      others keep theirs. */
  function WithField(d: FormData, name: FieldName, value: string): (r: FormData)
    ensures FieldOf(r, name) == value
    ensures forall other :: other != name ==> FieldOf(r, other) == FieldOf(d, other)
  {
    match name
    case DateField => d.(date := value)
    case SourceField => d.(source := value)
    case AmountField => d.(amount := value)
    case CategoryField => d.(category := value)
    case DescriptionField => d.(description := value)
  }

  datatype Verdict = Accept(record: Draft) | Reject(message: string)

  /** The validation chain of `handleSubmit`; `toNumber` is `Number`, with
      `None` for NaN. */
  function Check(d: FormData, toNumber: string -> Option<real>): (v: Verdict)
    ensures (d.date == "" || d.source == "" || d.amount == "") ==> v == Reject(AllFieldsRequired)
    ensures d.date != "" && d.source != "" && d.amount != "" && (toNumber(d.amount).None? || toNumber(d.amount).value <= 0.0)
      ==> v == Reject(AmountMustBePositive)
    ensures v.Accept? <==> d.date != "" && d.source != "" && d.amount != "" && toNumber(d.amount).Some? && toNumber(d.amount).value > 0.0
    ensures v.Accept? ==>
      && v.record == Draft(d.date, d.source, Num(toNumber(d.amount)), d.category, Some(d.description), None, None)
      && v.record.amount.number.value > 0.0
  {
    if d.date == "" || d.source == "" || d.amount == "" then Reject(AllFieldsRequired)
    else if toNumber(d.amount).None? || toNumber(d.amount).value <= 0.0 then Reject(AmountMustBePositive)
    else Accept(Draft(d.date, d.source, Num(toNumber(d.amount)), d.category, Some(d.description), None, None))
  }

  /** The description is not required, and the category is not checked:
      neither changes whether a submission is accepted. */
  lemma OptionalFields(d: FormData, toNumber: string -> Option<real>, description: string, category: string)
    ensures Check(d.(description := description, category := category), toNumber).Accept? == Check(d, toNumber).Accept?
  {
  }

  class IncomeForm {
    var formData: FormData
    var error: string

    constructor()
      ensures formData == InitialData && formData.category == "Freelancing" && error == ""
    {
      formData := InitialData;
      error := "";
    }

    /** `handleChange`: the named field changes, the others stay, and the
        error line is cleared. */
    method HandleChange(name: FieldName, value: string)
      modifies this
      ensures FieldOf(formData, name) == value
      ensures forall other :: other != name ==> FieldOf(formData, other) == FieldOf(old(formData), other)
      ensures error == ""
    {
      formData := WithField(formData, name, value);
      error := "";
    }

    /** `handleSubmit`: a rejected submission sets the error line and calls
        nothing; an accepted one hands the record to `onAdd` (`submitted`)
        and then closes the form (`closed`). The fields never change. */
    method HandleSubmit(toNumber: string -> Option<real>) returns (submitted: Option<Draft>, closed: bool)
      modifies this
      ensures formData == old(formData)
      ensures Check(formData, toNumber).Reject? ==>
        submitted.None? && !closed && error == Check(formData, toNumber).message
      ensures Check(formData, toNumber).Accept? ==>
        submitted == Some(Check(formData, toNumber).record) && closed && error == old(error)
    {
      submitted, closed := None, false;
      if formData.date == "" || formData.source == "" || formData.amount == "" {
        error := AllFieldsRequired;
        return;
      }
      var amount := toNumber(formData.amount);
      if amount.None? || amount.value <= 0.0 {
        error := AmountMustBePositive;
        return;
      }
      submitted := Some(Draft(formData.date, formData.source, Num(amount), formData.category,
                              Some(formData.description), None, None));
      closed := true;
    }
  }
}
