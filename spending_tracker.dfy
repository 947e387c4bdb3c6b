/** The spending page: the stored list of expenses, the add and delete handlers, and the
    daily/monthly switch of the chart. */
module SpendingTracker {
  import opened Common
  import opened Calendar
  import opened Lists

  /** An expense. `date` is the day its stored `yyyy-MM-dd` text names. */
  datatype ExpenseItem = ExpenseItem(id: Id, amount: real, category: string, date: Date)

  /** What the form emits: an expense without its id. */
  datatype NewExpense = NewExpense(amount: real, category: string, date: Date)

  /** How the chart groups expenses. */
  datatype ViewMode = Daily | Monthly

  /** The local-storage key the list is saved under. */
  const StorageKey := "spendingTrackerExpenses"

  function ExpenseId(e: ExpenseItem): Id {
    e.id
  }

  /** The record `handleAddExpense` appends: the emitted fields, unchanged, and the fresh id. */
  function Recorded(freshId: Id, e: NewExpense): (r: ExpenseItem)
    ensures r.id == freshId && NewExpense(r.amount, r.category, r.date) == e
  {
    ExpenseItem(freshId, e.amount, e.category, e.date)
  }

  /** The sum of the amounts. */
  function TotalSpent(expenses: seq<ExpenseItem>): real {
    if expenses == [] then 0.0 else TotalSpent(expenses[..|expenses| - 1]) + expenses[|expenses| - 1].amount
  }

  /** Adding an expense adds its amount to the total. */
  lemma TotalSpentAppend(expenses: seq<ExpenseItem>, e: ExpenseItem)
    ensures TotalSpent(expenses + [e]) == TotalSpent(expenses) + e.amount
  {
    assert (expenses + [e])[..|expenses|] == expenses;
  }

  /** Both handlers keep the ids unique, adding provided the new id is unused. */
  lemma HandlersKeepIdsUnique(expenses: seq<ExpenseItem>, id: Id, freshId: Id, e: NewExpense)
    requires UniqueIds(expenses, ExpenseId)
    ensures UniqueIds(Without(expenses, ExpenseId, id), ExpenseId)
    ensures FreshId(expenses, ExpenseId, freshId) ==> UniqueIds(expenses + [Recorded(freshId, e)], ExpenseId)
  {
    FilterKeepsUniqueIds(expenses, ExpenseId, OtherId(ExpenseId, id));
    if FreshId(expenses, ExpenseId, freshId) {
      AppendKeepsUniqueIds(expenses, ExpenseId, Recorded(freshId, e));
    }
  }

  /** The page's state and its handlers. */
  class Page {
    var expenses: seq<ExpenseItem>
    var viewMode: ViewMode

    /** `stored` is the list saved under `StorageKey`, or `None` when the key is missing or
        does not hold valid JSON; the default list is empty and the chart starts daily. */
    constructor (stored: Option<seq<ExpenseItem>>)
      ensures expenses == stored.GetOr([]) && viewMode == Daily
    {
      expenses := stored.GetOr([]);
      viewMode := Daily;
    }

    /** `handleAddExpense`; `freshId` is the value `crypto.randomUUID()` returns. Whatever the
        form emits is appended, without further checks. */
    method AddExpense(freshId: Id, e: NewExpense) returns (toast: Toast)
      modifies this
      ensures expenses == old(expenses) + [Recorded(freshId, e)]
      ensures toast == Success("Expense added successfully!") && viewMode == old(viewMode)
    {
      expenses := expenses + [Recorded(freshId, e)];
      toast := Success("Expense added successfully!");
    }

    /** `handleDeleteExpense`. */
    method DeleteExpense(id: Id) returns (toast: Toast)
      modifies this
      ensures expenses == Without(old(expenses), ExpenseId, id)
      ensures toast == Success("Expense deleted.") && viewMode == old(viewMode)
    {
      expenses := Without(expenses, ExpenseId, id);
      toast := Success("Expense deleted.");
    }

    /** The toggle group's `onValueChange`. The group hands over the value of the pressed item,
        or "" when the pressed item is pressed again; `value && setViewMode(value)` ignores
        the latter, so a mode is always selected. */
    method ChangeViewMode(value: string)
      requires value == "" || value == "daily" || value == "monthly"
      modifies this
      ensures value == "" ==> viewMode == old(viewMode)
      ensures value == "daily" ==> viewMode == Daily
      ensures value == "monthly" ==> viewMode == Monthly
      ensures expenses == old(expenses)
    {
      if value != "" {
        viewMode := if value == "daily" then Daily else Monthly;
      }
    }
  }
}
