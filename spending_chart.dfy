/** The spending chart's data: the expenses grouped by day ("MMM dd") or by month
    ("MMM yyyy"), with one bar per group holding the sum of its amounts. */
module SpendingChart {
  import opened Calendar
  import opened Lists
  import opened SpendingTracker

  /** The group an expense's day falls in: `format(date, "MMM dd")` in daily mode and
      `format(date, "MMM yyyy")` in monthly mode. */
  function ChartKey(mode: ViewMode, d: Date): string {
    if mode == Daily then MonthDay(d) else MonthYear(d)
  }

  /** Two days share a monthly bar exactly when they share month and year, and a daily bar
      exactly when they share month and day of the month, whatever their years: the daily
      chart adds up, say, the 5th of January of every year. */
  lemma ChartKeyEqual(mode: ViewMode, a: Date, b: Date)
    ensures ChartKey(mode, a) == ChartKey(mode, b) <==>
      a.month == b.month && (if mode == Daily then a.day == b.day else a.year == b.year)
  {
    if mode == Daily {
      MonthDayEqual(a, b);
    } else {
      MonthYearEqual(a, b);
    }
  }

  /** The grouping of a view mode, as a function of the expense. */
  function Grouping(mode: ViewMode): ExpenseItem -> string {
    (e: ExpenseItem) => ChartKey(mode, e.date)
  }

  /** The keys of the `aggregated` object in the order `Object.keys` lists them: the order in
      which each was first assigned. */
  function Keys(expenses: seq<ExpenseItem>, group: ExpenseItem -> string): (r: seq<string>)
    ensures |r| <= |expenses|
    ensures forall i, j :: 0 <= i < j < |r| ==> r[i] != r[j]
    ensures forall i :: 0 <= i < |expenses| ==> group(expenses[i]) in r
    decreases |expenses|
  {
    if expenses == [] then []
    else
      var init := expenses[..|expenses| - 1];
      var p, k := Keys(init, group), group(expenses[|expenses| - 1]);
      assert forall i :: 0 <= i < |init| ==> init[i] == expenses[i];
      if k in p then p else p + [k]
  }

  /** The sum of the amounts of the expenses whose group is `key`. */
  function TotalFor(expenses: seq<ExpenseItem>, group: ExpenseItem -> string, key: string): real
    decreases |expenses|
  {
    if expenses == [] then 0.0
    else
      var last := expenses[|expenses| - 1];
      TotalFor(expenses[..|expenses| - 1], group, key) + (if group(last) == key then last.amount else 0.0)
  }

  /** The test `e => key of e === k`. */
  function InGroup(group: ExpenseItem -> string, key: string): ExpenseItem -> bool {
    e => group(e) == key
  }

  /** A group's total is the total spent on the expenses of that group. */
  lemma {:induction false} TotalForIsGroupTotal(expenses: seq<ExpenseItem>, group: ExpenseItem -> string, key: string)
    ensures TotalFor(expenses, group, key) == TotalSpent(Filter(expenses, InGroup(group, key)))
    decreases |expenses|
  {
    if expenses != [] {
      var init, last := expenses[..|expenses| - 1], expenses[|expenses| - 1];
      TotalForIsGroupTotal(init, group, key);
      if group(last) == key {
        TotalSpentAppend(Filter(init, InGroup(group, key)), last);
      }
    }
  }

  /** A bar of the chart. */
  datatype ChartPoint = ChartPoint(name: string, total: real)

  /** The bars for the keys `keys`, in their order. */
  function Points(keys: seq<string>, expenses: seq<ExpenseItem>, group: ExpenseItem -> string): (r: seq<ChartPoint>)
    ensures |r| == |keys|
    ensures forall j :: 0 <= j < |r| ==> r[j] == ChartPoint(keys[j], TotalFor(expenses, group, keys[j]))
    decreases |keys|
  {
    if keys == [] then []
    else
      var k := keys[|keys| - 1];
      Points(keys[..|keys| - 1], expenses, group) + [ChartPoint(k, TotalFor(expenses, group, k))]
  }

  /** One bar per group, in first-seen order. */
  function Aggregate(expenses: seq<ExpenseItem>, group: ExpenseItem -> string): seq<ChartPoint> {
    Points(Keys(expenses, group), expenses, group)
  }

  /** The chart data before the chronological re-sort. */
  function ChartData(expenses: seq<ExpenseItem>, mode: ViewMode): seq<ChartPoint> {
    Aggregate(expenses, Grouping(mode))
  }

  /** The dictionary and its key order after a pass over `seen`: the keys are those of
      `seen` in first-seen order, and each holds its group's total. */
  ghost predicate Tallied(aggregated: map<string, real>, order: seq<string>, seen: seq<ExpenseItem>, group: ExpenseItem -> string) {
    && order == Keys(seen, group)
    && (forall k :: k in aggregated <==> k in order)
    && (forall k :: k in aggregated ==> aggregated[k] == TotalFor(seen, group, k))
  }

  /** One more expense, tallied as `aggregateData` does (the old total, or 0 for a key not
      yet seen, plus the amount; a new key goes to the end of the order), keeps the tally
      right. */
  lemma TallyStep(aggregated: map<string, real>, order: seq<string>, seen: seq<ExpenseItem>, e: ExpenseItem,
                   group: ExpenseItem -> string, key: string, previous: real,
                   more: seq<ExpenseItem>, next: map<string, real>, nextOrder: seq<string>)
    requires Tallied(aggregated, order, seen, group)
    requires key == group(e) && more == seen + [e]
    requires previous == if key in aggregated && aggregated[key] != 0.0 then aggregated[key] else 0.0
    requires next == aggregated[key := previous + e.amount]
    requires nextOrder == if key in aggregated then order else order + [key]
    ensures Tallied(next, nextOrder, more, group)
  {
    assert more[..|seen|] == seen;
    assert previous == TotalFor(seen, group, key) by {
      if key !in aggregated {
        TotalForAbsent(seen, group, key);
      }
    }
    forall k | k in next ensures next[k] == TotalFor(more, group, k) {
      TotalForStep(seen, group, e, k);
    }
  }

  /** The loop of `aggregateData`: one pass over the expenses that adds each amount to its
      group's entry of the dictionary (`(aggregated[key] || 0) + amount`). The dictionary is a
      `map` beside the sequence of its keys in insertion order, which is what a JavaScript
      object with these keys keeps. */
  method Tally(data: seq<ExpenseItem>, group: ExpenseItem -> string) returns (aggregated: map<string, real>, order: seq<string>)
    ensures Tallied(aggregated, order, data, group)
  {
    aggregated, order := map[], [];
    assert data[..0] == [];
    for i := 0 to |data|
      invariant Tallied(aggregated, order, data[..i], group)
    {
      var key := group(data[i]);
      var previous := if key in aggregated && aggregated[key] != 0.0 then aggregated[key] else 0.0;
      ghost var aggregated0, order0 := aggregated, order;
      if key !in aggregated {
        order := order + [key];
      }
      aggregated := aggregated[key := previous + data[i].amount];
      PrefixStep(data, i);
      TallyStep(aggregated0, order0, data[..i], data[i], group, key, previous, data[..i + 1], aggregated, order);
    }
    assert data[..|data|] == data;
  }

  /** `aggregateData` up to its final sort: tallies the expenses by the view mode's grouping,
      then lists the dictionary's entries in key order. */
  method AggregateData(data: seq<ExpenseItem>, mode: ViewMode) returns (chartData: seq<ChartPoint>)
    ensures chartData == ChartData(data, mode)
  {
    var aggregated, order := Tally(data, Grouping(mode));
    chartData := seq(|order|, j requires 0 <= j < |order| => ChartPoint(order[j], aggregated[order[j]]));
  }

  /** The sum of the bars' totals. */
  function SumTotals(points: seq<ChartPoint>): real
    decreases |points|
  {
    if points == [] then 0.0 else SumTotals(points[..|points| - 1]) + points[|points| - 1].total
  }

  /** One more expense raises the bars over distinct keys by its amount when its group is
      among them, and leaves their sum alone otherwise. */
  lemma {:induction false} SumPointsStep(keys: seq<string>, expenses: seq<ExpenseItem>, e: ExpenseItem, group: ExpenseItem -> string)
    requires forall i, j :: 0 <= i < j < |keys| ==> keys[i] != keys[j]
    ensures SumTotals(Points(keys, expenses + [e], group)) ==
      SumTotals(Points(keys, expenses, group)) + (if group(e) in keys then e.amount else 0.0)
    decreases |keys|
  {
    var more := expenses + [e];
    assert more[..|more| - 1] == expenses;
    if keys != [] {
      var init, k := keys[..|keys| - 1], keys[|keys| - 1];
      SumPointsStep(init, expenses, e, group);
      assert Points(keys, more, group)[..|init|] == Points(init, more, group);
      assert Points(keys, expenses, group)[..|init|] == Points(init, expenses, group);
      assert group(e) in keys <==> group(e) in init || group(e) == k;
      assert group(e) == k ==> group(e) !in init;
    }
  }

  /** The bars add up to everything spent: no amount is lost or counted twice. */
  lemma {:induction false} ChartTotalsSum(expenses: seq<ExpenseItem>, group: ExpenseItem -> string)
    ensures SumTotals(Aggregate(expenses, group)) == TotalSpent(expenses)
    decreases |expenses|
  {
    if expenses != [] {
      var init, e := expenses[..|expenses| - 1], expenses[|expenses| - 1];
      assert expenses == init + [e];
      ChartTotalsSum(init, group);
      ChartTotalsStep(init, e, group);
    }
  }

  /** One more expense keeps the bars' sum equal to the total spent. */
  lemma ChartTotalsStep(init: seq<ExpenseItem>, e: ExpenseItem, group: ExpenseItem -> string)
    requires SumTotals(Aggregate(init, group)) == TotalSpent(init)
    ensures SumTotals(Aggregate(init + [e], group)) == TotalSpent(init + [e])
  {
    var expenses := init + [e];
    assert expenses[..|init|] == init;
    var keys, before := Keys(expenses, group), Keys(init, group);
    assert keys == if group(e) in before then before else before + [group(e)];
    assert group(e) in keys;
    SumPointsStep(keys, init, e, group);
    if group(e) !in before {
      TotalForAbsent(init, group, group(e));
      NewKeyAddsNothing(before, init, group, group(e));
    }
    TotalSpentAppend(init, e);
  }

  /** A bar for a key no expense falls in leaves the sum of the bars as it was. */
  lemma NewKeyAddsNothing(keys: seq<string>, expenses: seq<ExpenseItem>, group: ExpenseItem -> string, k: string)
    requires TotalFor(expenses, group, k) == 0.0
    ensures SumTotals(Points(keys + [k], expenses, group)) == SumTotals(Points(keys, expenses, group))
  {
    var more := keys + [k];
    assert more[..|keys|] == keys;
    var points := Points(more, expenses, group);
    assert points[..|keys|] == Points(keys, expenses, group);
  }

  /** One more expense adds its amount to its own group's total and to no other. */
  lemma TotalForStep(expenses: seq<ExpenseItem>, group: ExpenseItem -> string, e: ExpenseItem, key: string)
    ensures TotalFor(expenses + [e], group, key) == TotalFor(expenses, group, key) + (if group(e) == key then e.amount else 0.0)
  {
    assert (expenses + [e])[..|expenses|] == expenses;
  }

  /** A group no expense falls in has total 0. */
  lemma {:induction false} TotalForAbsent(expenses: seq<ExpenseItem>, group: ExpenseItem -> string, key: string)
    requires key !in Keys(expenses, group)
    ensures TotalFor(expenses, group, key) == 0.0
    decreases |expenses|
  {
    if expenses != [] {
      var init := expenses[..|expenses| - 1];
      assert forall i :: 0 <= i < |init| ==> init[i] == expenses[i];
      TotalForAbsent(init, group, key);
    }
  }

  /** Every group `Object.keys` lists is the group of some expense. */
  lemma {:induction false} KeysAreGroups(expenses: seq<ExpenseItem>, group: ExpenseItem -> string)
    ensures forall j :: 0 <= j < |Keys(expenses, group)| ==>
      exists i :: 0 <= i < |expenses| && group(expenses[i]) == Keys(expenses, group)[j]
    decreases |expenses|
  {
    if expenses != [] {
      var init := expenses[..|expenses| - 1];
      KeysAreGroups(init, group);
      var keys, last := Keys(expenses, group), expenses[|expenses| - 1];
      assert keys == Keys(init, group) || keys == Keys(init, group) + [group(last)];
      forall j | 0 <= j < |keys| ensures exists i :: 0 <= i < |expenses| && group(expenses[i]) == keys[j] {
        if j < |Keys(init, group)| {
          assert keys[j] == Keys(init, group)[j];
          var i :| 0 <= i < |init| && group(init[i]) == keys[j];
          assert expenses[i] == init[i];
        } else {
          assert group(last) == keys[j];
        }
      }
    } else {
      assert Keys(expenses, group) == [];
    }
  }

  /** Every expense's group has a bar. */
  lemma EveryGroupHasBar(expenses: seq<ExpenseItem>, group: ExpenseItem -> string)
    ensures var c := Aggregate(expenses, group);
      forall i :: 0 <= i < |expenses| ==> exists j :: 0 <= j < |c| && c[j].name == group(expenses[i])
  {
    var c, keys := Aggregate(expenses, group), Keys(expenses, group);
    forall i | 0 <= i < |expenses| ensures exists j :: 0 <= j < |c| && c[j].name == group(expenses[i]) {
      var j :| 0 <= j < |keys| && keys[j] == group(expenses[i]);
      assert c[j].name == keys[j];
    }
  }

  /** Every bar's group is the group of some expense. */
  lemma EveryBarIsAGroup(expenses: seq<ExpenseItem>, group: ExpenseItem -> string)
    ensures var c := Aggregate(expenses, group);
      forall j :: 0 <= j < |c| ==> exists i :: 0 <= i < |expenses| && group(expenses[i]) == c[j].name
  {
    var c, keys := Aggregate(expenses, group), Keys(expenses, group);
    KeysAreGroups(expenses, group);
    forall j | 0 <= j < |c| ensures exists i :: 0 <= i < |expenses| && group(expenses[i]) == c[j].name {
      assert c[j].name == keys[j];
    }
  }

  /** There is exactly one bar per group that some expense falls in: the bars' names are
      pairwise different, every expense's group has a bar, and every bar's group is some
      expense's. So there are no more bars than expenses. */
  lemma ChartBarsAreGroups(expenses: seq<ExpenseItem>, group: ExpenseItem -> string)
    ensures var c := Aggregate(expenses, group);
      && |c| <= |expenses|
      && (forall i, j :: 0 <= i < j < |c| ==> c[i].name != c[j].name)
      && (forall i :: 0 <= i < |expenses| ==> exists j :: 0 <= j < |c| && c[j].name == group(expenses[i]))
      && (forall j :: 0 <= j < |c| ==> exists i :: 0 <= i < |expenses| && group(expenses[i]) == c[j].name)
  {
    EveryGroupHasBar(expenses, group);
    EveryBarIsAGroup(expenses, group);
  }

  /** Each bar holds the total spent on the expenses of its group. */
  lemma ChartBarTotals(expenses: seq<ExpenseItem>, group: ExpenseItem -> string)
    ensures var c := Aggregate(expenses, group);
      forall j :: 0 <= j < |c| ==> c[j].total == TotalSpent(Filter(expenses, InGroup(group, c[j].name)))
  {
    var c, keys := Aggregate(expenses, group), Keys(expenses, group);
    forall j | 0 <= j < |c| ensures c[j].total == TotalSpent(Filter(expenses, InGroup(group, c[j].name))) {
      TotalForIsGroupTotal(expenses, group, keys[j]);
    }
  }

  /** The chart's placeholder is shown exactly when there is no expense. */
  lemma ChartEmptyIff(expenses: seq<ExpenseItem>, group: ExpenseItem -> string)
    ensures Aggregate(expenses, group) == [] <==> expenses == []
  {
    if expenses != [] {
      assert group(expenses[0]) in Keys(expenses, group);
    }
  }
}
