/** The form that records an expense: three checks that stop at the first failure, then the
    record it hands to the page, then the reset. */
module ExpenseForm {
  import opened Common
  import opened Calendar
  import opened SpendingTracker

  /** The categories the select offers. */
  const Categories: seq<string> :=
    ["Food", "Transport", "Entertainment", "Utilities", "Shopping", "Health", "Education", "Rent", "Other"]

  /** The checks a submission can fail, in the order they run. */
  datatype Failure = BadAmount | NoCategory | NoDate

  /** The error toast each failure raises. */
  function Message(f: Failure): string {
    match f
    case BadAmount => "Please enter a valid positive amount."
    case NoCategory => "Please select a category."
    case NoDate => "Please select a date."
  }

  /** What a submission does: raise the error of the first failed check, or hand a record on. */
  datatype Outcome = Rejected(failure: Failure) | Submitted(expense: NewExpense)

  /** The outcome of `handleSubmit` on the fields; `parseFloat` stands for the JavaScript
      function (`None` for NaN). */
  function SubmitOutcome(amount: string, category: string, date: Option<Date>, parseFloat: string -> Option<real>): Outcome {
    var a := parseFloat(amount);
    if !PositiveReal(a) then Rejected(BadAmount)
    else if category == "" then Rejected(NoCategory)
    else if date.None? then Rejected(NoDate)
    else Submitted(NewExpense(a.value, category, date.value))
  }

  /** A submission succeeds exactly when the amount is a positive number, a category is set and
      a day is picked; the checks run in that order; and what is emitted is the parsed amount,
      the category and the day. */
  lemma SubmitOutcomeCharacterised(amount: string, category: string, date: Option<Date>, parseFloat: string -> Option<real>)
    ensures var o := SubmitOutcome(amount, category, date, parseFloat);
      && (o.Submitted? <==> PositiveReal(parseFloat(amount)) && category != "" && date.Some?)
      && (o == Rejected(BadAmount) <==> !PositiveReal(parseFloat(amount)))
      && (o == Rejected(NoCategory) <==> PositiveReal(parseFloat(amount)) && category == "")
      && (o == Rejected(NoDate) <==> PositiveReal(parseFloat(amount)) && category != "" && date.None?)
      && (o.Submitted? ==> o.expense == NewExpense(parseFloat(amount).value, category, date.value))
  {
  }

  /** The handler checks only that a category is set, not that it is one of `Categories`: a
      category the select never offers is recorded just the same. */
  lemma CategoryMembershipNotChecked(amount: string, category: string, date: Option<Date>, parseFloat: string -> Option<real>)
    requires category != ""
    ensures SubmitOutcome(amount, category, date, parseFloat).Submitted? <==>
            SubmitOutcome(amount, Categories[0], date, parseFloat).Submitted?
    ensures "Travel" !in Categories
  {
    assert forall i :: 0 <= i < |Categories| ==> Categories[i] != "Travel";
  }

  /** The form's state and its submit handler. */
  class Form {
    var amount: string
    var category: string
    var date: Option<Date>

    /** An empty form; the date picker starts on `today`, the day `new Date()` falls on. */
    constructor (today: Date)
      ensures amount == "" && category == "" && date == Some(today)
    {
      amount, category := "", "";
      date := Some(today);
    }

    /** `handleSubmit`; `emitted` is the argument of `onAddExpense`, if it is called. The form
        raises no toast of its own on success. */
    method Submit(parseFloat: string -> Option<real>, today: Date) returns (toast: Toast, emitted: Option<NewExpense>)
      modifies this
      ensures SubmitOutcome(old(amount), old(category), old(date), parseFloat).Rejected? ==>
        && toast == Error(Message(SubmitOutcome(old(amount), old(category), old(date), parseFloat).failure))
        && emitted == None
        && amount == old(amount) && category == old(category) && date == old(date)
      ensures SubmitOutcome(old(amount), old(category), old(date), parseFloat).Submitted? ==>
        && toast == NoToast
        && emitted == Some(SubmitOutcome(old(amount), old(category), old(date), parseFloat).expense)
        && amount == "" && category == "" && date == Some(today)
    {
      var parsedAmount := parseFloat(amount);
      emitted := None;
      if parsedAmount.None? || parsedAmount.value <= 0.0 {
        toast := Error(Message(BadAmount));
        return;
      }
      if category == "" {
        toast := Error(Message(NoCategory));
        return;
      }
      if date.None? {
        toast := Error(Message(NoDate));
        return;
      }
      emitted := Some(NewExpense(parsedAmount.value, category, date.value));
      amount, category := "", "";
      date := Some(today);
      toast := NoToast;
    }
  }
}
