/** The list of expenses: a newest-first copy of the page's records. */
module ExpenseList {
  import opened Calendar
  import opened Sorting
  import opened SpendingTracker

  /** The sort key of `sortedExpenses`: the time stamp of the expense's day. */
  function ExpenseDay(e: ExpenseItem): int {
    DayNumber(e.date)
  }

  /** `sortedExpenses`: a sorted copy, newest day first, holding every expense once. The page's
      own list is a value here and is left as it was. */
  function SortedExpenses(expenses: seq<ExpenseItem>): (r: seq<ExpenseItem>)
    ensures forall i, j :: 0 <= i < j < |r| ==> !Precedes(r[i].date, r[j].date)
    ensures multiset(r) == multiset(expenses)
  {
    var r := SortDesc(expenses, ExpenseDay);
    forall i, j | 0 <= i < j < |r| ensures !Precedes(r[i].date, r[j].date) {
      DayNumberOrder(r[i].date, r[j].date);
    }
    r
  }

  /** Expenses of the same day keep the order the page stores them in. */
  lemma SortedExpensesStable(expenses: seq<ExpenseItem>, day: Date)
    ensures WithKey(SortedExpenses(expenses), ExpenseDay, DayNumber(day)) == WithKey(expenses, ExpenseDay, DayNumber(day))
  {
    SortDescStable(expenses, ExpenseDay, DayNumber(day));
  }

  /** The placeholder is shown exactly when there is no expense. */
  lemma PlaceholderIffEmpty(expenses: seq<ExpenseItem>)
    ensures |SortedExpenses(expenses)| == 0 <==> expenses == []
  {
    assert |multiset(SortedExpenses(expenses))| == |multiset(expenses)|;
  }
}
