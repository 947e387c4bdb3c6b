/** The spending report: the expenses of a chosen range of days, oldest first, laid out line by
    line on as many pages as they need, with the total at the end. */
module DownloadSpendingPdf {
  import opened Common
  import opened Calendar
  import opened Lists
  import opened Sorting
  import opened SpendingTracker

  /** `isAfter(day, start) || same yyyy-MM-dd text`, and the same against the end: the filter
      written the way the handler writes it. */
  predicate InRange(e: ExpenseItem, start: Date, end: Date) {
    (Precedes(start, e.date) || Iso(e.date) == Iso(start)) && (Precedes(e.date, end) || Iso(e.date) == Iso(end))
  }

  /** The filter keeps an expense exactly when its day lies between the two days, both
      included. */
  lemma InRangeInclusive(e: ExpenseItem, start: Date, end: Date)
    ensures InRange(e, start, end) <==> DayNumber(start) <= DayNumber(e.date) <= DayNumber(end)
  {
    IsoInjective(e.date, start);
    IsoInjective(e.date, end);
    DayNumberOrder(start, e.date);
    DayNumberOrder(e.date, end);
  }

  function Kept(start: Date, end: Date): ExpenseItem -> bool {
    e => InRange(e, start, end)
  }

  /** The sort key of the report: the time stamp of the expense's day. */
  function ExpenseDay(e: ExpenseItem): int {
    DayNumber(e.date)
  }

  /** `filteredExpenses`: the expenses in the range, sorted oldest first. */
  function Selected(expenses: seq<ExpenseItem>, start: Date, end: Date): seq<ExpenseItem> {
    SortAsc(Filter(expenses, Kept(start, end)), ExpenseDay)
  }

  /** Every expense in the range is in the report as often as the page stores it, and
      nothing else is. */
  lemma SelectedCounts(expenses: seq<ExpenseItem>, start: Date, end: Date, x: ExpenseItem)
    ensures multiset(Selected(expenses, start, end))[x]
      == if DayNumber(start) <= DayNumber(x.date) <= DayNumber(end) then multiset(expenses)[x] else 0
  {
    FilterCount(expenses, Kept(start, end), x);
    InRangeInclusive(x, start, end);
  }

  /** Every listed expense lies in the range. */
  lemma SelectedInRange(expenses: seq<ExpenseItem>, start: Date, end: Date)
    ensures var s := Selected(expenses, start, end);
      forall i :: 0 <= i < |s| ==> DayNumber(start) <= DayNumber(s[i].date) <= DayNumber(end)
  {
    var f := Filter(expenses, Kept(start, end));
    var s := Selected(expenses, start, end);
    forall i | 0 <= i < |s| ensures DayNumber(start) <= DayNumber(s[i].date) <= DayNumber(end) {
      assert s[i] in multiset(f);
      var j :| 0 <= j < |f| && f[j] == s[i];
      InRangeInclusive(s[i], start, end);
    }
  }

  /** The report lists the expenses oldest first. */
  lemma SelectedChronological(expenses: seq<ExpenseItem>, start: Date, end: Date)
    ensures var s := Selected(expenses, start, end);
      forall i, j :: 0 <= i < j < |s| ==> !Precedes(s[j].date, s[i].date)
  {
    var s := Selected(expenses, start, end);
    forall i, j | 0 <= i < j < |s| ensures !Precedes(s[j].date, s[i].date) {
      DayNumberOrder(s[j].date, s[i].date);
    }
  }

  /** The expenses of one day keep the order in which the page stores them. */
  lemma SelectedStable(expenses: seq<ExpenseItem>, start: Date, end: Date, day: Date)
    ensures WithKey(Selected(expenses, start, end), ExpenseDay, DayNumber(day))
      == WithKey(Filter(expenses, Kept(start, end)), ExpenseDay, DayNumber(day))
  {
    SortAscStable(Filter(expenses, Kept(start, end)), ExpenseDay, DayNumber(day));
  }

  /** The page geometry of the report, in the document's units. */
  const Margin := 10
  const LineHeight := 7
  /** Where the first line (the title) is written. */
  const TitleY := 20

  /** The texts the report writes: the title ("Spending Report"), the heading of every page after
      the first ("Spending Report (continued)"), the range, one entry per expense and the total.
      The formatted dates and amounts are kept as the values they format. */
  datatype DocText =
    | Title
    | Continued
    | DateRange(start: Date, end: Date)
    | Entry(expense: ExpenseItem)
    | TotalLine(total: real)

  /** A text written on page `page` (0 for the first) at height `y`. */
  datatype DocLine = DocLine(page: nat, y: int, text: DocText)

  /** Where the next entry goes: the current page and `yPos`. */
  datatype Cursor = Cursor(page: nat, y: int)

  datatype Flowed = Flowed(lines: seq<DocLine>, at: Cursor)

  /** Whether the next entry starts a new page: two more lines would reach into the bottom
      margin. */
  predicate Breaks(c: Cursor, pageHeight: int) {
    c.y + LineHeight * 2 > pageHeight - Margin
  }

  /** The lines written for entry `e` at cursor `c`: on a break, the continuation heading at
      the margin of a new page and the entry two lines below it; otherwise the entry at `c`. */
  function Written(c: Cursor, e: ExpenseItem, pageHeight: int): seq<DocLine> {
    if Breaks(c, pageHeight) then
      [DocLine(c.page + 1, Margin, Continued), DocLine(c.page + 1, Margin + LineHeight * 2, Entry(e))]
    else
      [DocLine(c.page, c.y, Entry(e))]
  }

  /** The cursor after an entry written at `c`: one line below the entry. */
  function Next(c: Cursor, pageHeight: int): Cursor {
    if Breaks(c, pageHeight) then Cursor(c.page + 1, Margin + LineHeight * 3) else Cursor(c.page, c.y + LineHeight)
  }

  /** The entries `es` written from `start` on, one after the other. */
  function Flow(es: seq<ExpenseItem>, start: Cursor, pageHeight: int): Flowed
    decreases |es|
  {
    if es == [] then Flowed([], start)
    else
      var f := Flow(es[..|es| - 1], start, pageHeight);
      Flowed(f.lines + Written(f.at, es[|es| - 1], pageHeight), Next(f.at, pageHeight))
  }

  /** One more entry extends the layout by the lines written for it. */
  lemma FlowStep(es: seq<ExpenseItem>, e: ExpenseItem, start: Cursor, pageHeight: int)
    ensures var f := Flow(es, start, pageHeight);
      Flow(es + [e], start, pageHeight) == Flowed(f.lines + Written(f.at, e, pageHeight), Next(f.at, pageHeight))
  {
    assert (es + [e])[..|es|] == es;
  }

  /** The expenses of the entry lines among `lines`, in the order the lines are written. */
  function EntriesOf(lines: seq<DocLine>): seq<ExpenseItem>
    decreases |lines|
  {
    if lines == [] then []
    else
      var last := lines[|lines| - 1];
      EntriesOf(lines[..|lines| - 1]) + if last.text.Entry? then [last.text.expense] else []
  }

  lemma {:induction false} EntriesOfAppend(a: seq<DocLine>, b: seq<DocLine>)
    ensures EntriesOf(a + b) == EntriesOf(a) + EntriesOf(b)
    decreases |b|
  {
    if b == [] {
      assert a + b == a;
    } else {
      var b', last := b[..|b| - 1], b[|b| - 1];
      assert (a + b)[..|a + b| - 1] == a + b';
      assert (a + b)[|a + b| - 1] == last;
      EntriesOfAppend(a, b');
    }
  }

  /** The lines written for one expense hold one entry line, for that expense. */
  lemma EntriesOfWritten(c: Cursor, e: ExpenseItem, pageHeight: int)
    ensures EntriesOf(Written(c, e, pageHeight)) == [e]
  {
    var w := Written(c, e, pageHeight);
    if Breaks(c, pageHeight) {
      assert w[..1][..0] == [];
      assert w[..1][0].text == Continued;
      assert EntriesOf(w[..1]) == [];
      assert w[..|w| - 1] == w[..1];
    } else {
      assert w[..0] == [];
    }
  }

  /** The layout writes one entry line per expense, in the order of the expenses. */
  lemma {:induction false} FlowListsEntries(es: seq<ExpenseItem>, start: Cursor, pageHeight: int)
    ensures EntriesOf(Flow(es, start, pageHeight).lines) == es
    decreases |es|
  {
    if es != [] {
      FlowListsEntries(es[..|es| - 1], start, pageHeight);
      FlowEntriesStep(es, start, pageHeight);
    }
  }

  /** One more expense adds its entry line after those of the others. */
  lemma FlowEntriesStep(es: seq<ExpenseItem>, start: Cursor, pageHeight: int)
    requires es != []
    requires EntriesOf(Flow(es[..|es| - 1], start, pageHeight).lines) == es[..|es| - 1]
    ensures EntriesOf(Flow(es, start, pageHeight).lines) == es
  {
    var init, e := es[..|es| - 1], es[|es| - 1];
    var f := Flow(init, start, pageHeight);
    var w := Written(f.at, e, pageHeight);
    assert Flow(es, start, pageHeight).lines == f.lines + w;
    EntriesOfAppend(f.lines, w);
    EntriesOfWritten(f.at, e, pageHeight);
    SplitLast(es);
  }

  /** Every entry line of `lines` leaves room for two more lines above the bottom margin. */
  predicate EntriesClearMargin(lines: seq<DocLine>, pageHeight: int) {
    forall k :: 0 <= k < |lines| && lines[k].text.Entry? ==> lines[k].y + LineHeight * 2 <= pageHeight - Margin
  }

  /** No entry line is written within two lines of the bottom margin, provided the page is
      tall enough for the continuation heading and one entry (48 units; a jsPDF A4 page is
      297 high). */
  lemma {:induction false} EntriesFit(es: seq<ExpenseItem>, start: Cursor, pageHeight: int)
    requires pageHeight >= Margin * 2 + LineHeight * 4
    ensures EntriesClearMargin(Flow(es, start, pageHeight).lines, pageHeight)
    decreases |es|
  {
    if es != [] {
      var init := es[..|es| - 1];
      var f := Flow(init, start, pageHeight);
      var w := Written(f.at, es[|es| - 1], pageHeight);
      EntriesFit(init, start, pageHeight);
      var lines := Flow(es, start, pageHeight).lines;
      assert lines == f.lines + w;
      forall k | 0 <= k < |lines| && lines[k].text.Entry?
        ensures lines[k].y + LineHeight * 2 <= pageHeight - Margin
      {
        if k < |f.lines| {
          assert lines[k] == f.lines[k];
        } else if Breaks(f.at, pageHeight) {
          assert w == [DocLine(f.at.page + 1, Margin, Continued), DocLine(f.at.page + 1, Margin + LineHeight * 2, Entry(es[|es| - 1]))];
          assert k - |f.lines| == 1 && lines[k] == w[1];
          assert w[1].y + LineHeight * 2 <= pageHeight - Margin;
        } else {
          assert w == [DocLine(f.at.page, f.at.y, Entry(es[|es| - 1]))];
          assert lines[k] == w[0];
          assert w[0].y + LineHeight * 2 <= pageHeight - Margin;
        }
      }
    }
  }

  /** The entries never go back to an earlier page, and each adds at most one page. */
  lemma {:induction false} FlowPages(es: seq<ExpenseItem>, start: Cursor, pageHeight: int)
    ensures var f := Flow(es, start, pageHeight);
      && start.page <= f.at.page <= start.page + |es|
      && forall k :: 0 <= k < |f.lines| ==> start.page <= f.lines[k].page <= f.at.page
    decreases |es|
  {
    if es != [] {
      FlowPages(es[..|es| - 1], start, pageHeight);
    }
  }

  /** The title and the date range, two lines apart, on the first page. */
  function Header(start: Date, end: Date): seq<DocLine> {
    [DocLine(0, TitleY, Title),
     DocLine(0, TitleY + LineHeight * 2, DateRange(start, end))]
  }

  /** Where the first entry goes. */
  const FirstEntry := Cursor(0, TitleY + LineHeight * 4)

  /** `Spending_Report_<start>_to_<end>.pdf` with both days as `yyyy-MM-dd`. */
  function FileName(start: Date, end: Date): (r: string)
    ensures |r| == 44
  {
    "Spending_Report_" + Iso(start) + "_to_" + Iso(end) + ".pdf"
  }

  /** The file name tells which range the report covers. */
  lemma FileNameInjective(s1: Date, e1: Date, s2: Date, e2: Date)
    ensures FileName(s1, e1) == FileName(s2, e2) <==> s1 == s2 && e1 == e2
  {
    if FileName(s1, e1) == FileName(s2, e2) {
      assert FileName(s1, e1)[16..26] == Iso(s1) && FileName(s2, e2)[16..26] == Iso(s2);
      assert FileName(s1, e1)[30..40] == Iso(e1) && FileName(s2, e2)[30..40] == Iso(e2);
      IsoInjective(s1, s2);
      IsoInjective(e1, e2);
    }
  }

  /** A saved report: its file name, its lines in the order they are written, and its number
      of pages. */
  datatype Report = Report(fileName: string, lines: seq<DocLine>, pages: nat)

  /** The document listing `s`: the header, the entries, and the total one line below the
      last entry. */
  function Layout(s: seq<ExpenseItem>, start: Date, end: Date, pageHeight: int): Report {
    Report(FileName(start, end), LayoutLines(s, start, end, pageHeight), Flow(s, FirstEntry, pageHeight).at.page + 1)
  }

  /** Lines that are not entry lines add no entries. */
  lemma {:induction false} EntriesOfNone(lines: seq<DocLine>)
    requires forall k :: 0 <= k < |lines| ==> !lines[k].text.Entry?
    ensures EntriesOf(lines) == []
    decreases |lines|
  {
    if lines != [] {
      EntriesOfNone(lines[..|lines| - 1]);
    }
  }

  /** The lines of the document: the header, the entries, and the total one line below the
      last entry. */
  function LayoutLines(s: seq<ExpenseItem>, start: Date, end: Date, pageHeight: int): seq<DocLine> {
    var f := Flow(s, FirstEntry, pageHeight);
    Header(start, end) + f.lines + [DocLine(f.at.page, f.at.y + LineHeight, TotalLine(TotalSpent(s)))]
  }

  /** The document lists exactly the expenses of `s`, in their order. */
  lemma LayoutEntries(s: seq<ExpenseItem>, start: Date, end: Date, pageHeight: int)
    ensures EntriesOf(LayoutLines(s, start, end, pageHeight)) == s
  {
    var f := Flow(s, FirstEntry, pageHeight);
    var header := Header(start, end);
    var total := [DocLine(f.at.page, f.at.y + LineHeight, TotalLine(TotalSpent(s)))];
    FlowListsEntries(s, FirstEntry, pageHeight);
    EntriesOfAppend(header, f.lines);
    EntriesOfAppend(header + f.lines, total);
    EntriesOfNone(header);
    EntriesOfNone(total);
  }

  /** The document starts with the title and the range, lists exactly the expenses of `s` in
      their order, and ends with their total. */
  lemma LayoutContents(s: seq<ExpenseItem>, start: Date, end: Date, pageHeight: int)
    ensures var doc := Layout(s, start, end, pageHeight);
      && doc.lines[..2] == Header(start, end)
      && EntriesOf(doc.lines) == s
      && doc.lines[|doc.lines| - 1].text == TotalLine(TotalSpent(s))
  {
    var lines := LayoutLines(s, start, end, pageHeight);
    assert Layout(s, start, end, pageHeight).lines == lines;
    LayoutEntries(s, start, end, pageHeight);
    var header := Header(start, end);
    assert lines[..2] == header by {
      assert lines == header + (lines[2..]);
    }
  }

  /** The document has one page plus at most one per expense, every line is on one of them,
      and no entry line comes closer than two lines to the bottom margin. */
  lemma LayoutFits(s: seq<ExpenseItem>, start: Date, end: Date, pageHeight: int)
    requires pageHeight >= Margin * 2 + LineHeight * 4
    ensures var doc := Layout(s, start, end, pageHeight);
      && 1 <= doc.pages <= |s| + 1
      && (forall k :: 0 <= k < |doc.lines| ==> doc.lines[k].page < doc.pages)
      && EntriesClearMargin(doc.lines, pageHeight)
  {
    var f := Flow(s, FirstEntry, pageHeight);
    var doc := Layout(s, start, end, pageHeight);
    FlowPages(s, FirstEntry, pageHeight);
    EntriesFit(s, FirstEntry, pageHeight);
    assert doc.lines == Header(start, end) + f.lines + [DocLine(f.at.page, f.at.y + LineHeight, TotalLine(TotalSpent(s)))];
    forall k | 0 <= k < |doc.lines| ensures doc.lines[k].page < doc.pages {
      if 2 <= k < 2 + |f.lines| {
        assert doc.lines[k] == f.lines[k - 2];
      }
    }
    forall k | 0 <= k < |doc.lines| && doc.lines[k].text.Entry?
      ensures doc.lines[k].y + LineHeight * 2 <= pageHeight - Margin
    {
      assert 2 <= k < 2 + |f.lines|;
      assert doc.lines[k] == f.lines[k - 2];
    }
  }

  /** The jsPDF part of the handler: writes the title and the range, then each entry of
      `filtered`, starting a new page with the continuation heading whenever two more lines
      would reach into the bottom margin, then the total, and names the file. */
  method WriteReport(filtered: seq<ExpenseItem>, start: Date, end: Date, pageHeight: int) returns (doc: Report)
    ensures doc == Layout(filtered, start, end, pageHeight)
  {
    var lines := [DocLine(0, TitleY, Title)];
    var yPos := TitleY + LineHeight * 2;
    lines := lines + [DocLine(0, yPos, DateRange(start, end))];
    yPos := yPos + LineHeight * 2;
    var page: nat := 0;
    var totalSpending := 0.0;
    assert filtered[..0] == [];
    for i := 0 to |filtered|
      invariant lines == Header(start, end) + Flow(filtered[..i], FirstEntry, pageHeight).lines
      invariant Flow(filtered[..i], FirstEntry, pageHeight).at == Cursor(page, yPos)
      invariant totalSpending == TotalSpent(filtered[..i])
    {
      var e := filtered[i];
      PrefixStep(filtered, i);
      FlowStep(filtered[..i], e, FirstEntry, pageHeight);
      TotalSpentAppend(filtered[..i], e);
      if yPos + LineHeight * 2 > pageHeight - Margin {
        page := page + 1;
        yPos := Margin;
        lines := lines + [DocLine(page, yPos, Continued)];
        yPos := yPos + LineHeight * 2;
      }
      lines := lines + [DocLine(page, yPos, Entry(e))];
      totalSpending := totalSpending + e.amount;
      yPos := yPos + LineHeight;
    }
    assert filtered[..|filtered|] == filtered;
    yPos := yPos + LineHeight;
    lines := lines + [DocLine(page, yPos, TotalLine(totalSpending))];
    doc := Report(FileName(start, end), lines, page + 1);
  }

  /** How a click on the download button ends. */
  datatype Outcome =
    | MissingDates
    | EndBeforeStart
    | NothingInRange
    | Downloaded(report: Report)

  /** The toast each outcome raises. */
  function Notice(o: Outcome): Toast {
    match o
    case MissingDates => Error("Please select both a start and an end date.")
    case EndBeforeStart => Error("End date cannot be before start date.")
    case NothingInRange => Info("No expenses found for the selected date range.")
    case Downloaded(_) => Success("Spending report downloaded successfully!")
  }

  /** The checks of the handler in their order: both days chosen, the end not before the
      start, something in the range. */
  function DownloadOutcome(expenses: seq<ExpenseItem>, startDate: Option<Date>, endDate: Option<Date>, pageHeight: int): Outcome {
    if startDate.None? || endDate.None? then MissingDates
    else if Precedes(endDate.value, startDate.value) then EndBeforeStart
    else if Selected(expenses, startDate.value, endDate.value) == [] then NothingInRange
    else Downloaded(Layout(Selected(expenses, startDate.value, endDate.value), startDate.value, endDate.value, pageHeight))
  }

  /** There is something to report exactly when some expense lies in the range. */
  lemma SelectedNonEmpty(expenses: seq<ExpenseItem>, start: Date, end: Date)
    ensures Selected(expenses, start, end) != []
      <==> exists i :: 0 <= i < |expenses| && DayNumber(start) <= DayNumber(expenses[i].date) <= DayNumber(end)
  {
    var f := Filter(expenses, Kept(start, end));
    assert |Selected(expenses, start, end)| == |multiset(f)| == |f|;
    if f != [] {
      var i :| 0 <= i < |expenses| && expenses[i] == f[0];
      InRangeInclusive(expenses[i], start, end);
    }
    forall i | 0 <= i < |expenses| && DayNumber(start) <= DayNumber(expenses[i].date) <= DayNumber(end)
      ensures f != []
    {
      InRangeInclusive(expenses[i], start, end);
      assert expenses[i] in f;
    }
  }

  /** A report is saved exactly when both days are chosen, the end is not before the start,
      and some expense lies between them. */
  lemma DownloadedIff(expenses: seq<ExpenseItem>, startDate: Option<Date>, endDate: Option<Date>, pageHeight: int)
    ensures DownloadOutcome(expenses, startDate, endDate, pageHeight).Downloaded?
      <==> (startDate.Some? && endDate.Some? && !Precedes(endDate.value, startDate.value)
        && exists i :: 0 <= i < |expenses| && DayNumber(startDate.value) <= DayNumber(expenses[i].date) <= DayNumber(endDate.value))
  {
    if startDate.Some? && endDate.Some? {
      SelectedNonEmpty(expenses, startDate.value, endDate.value);
    }
  }

  /** `handleDownloadPDF`. `pageHeight` is the height of the document's pages. */
  method DownloadReport(expenses: seq<ExpenseItem>, startDate: Option<Date>, endDate: Option<Date>, pageHeight: int)
    returns (toast: Toast, report: Option<Report>)
    ensures var o := DownloadOutcome(expenses, startDate, endDate, pageHeight);
      toast == Notice(o) && report == if o.Downloaded? then Some(o.report) else None
  {
    ghost var outcome := DownloadOutcome(expenses, startDate, endDate, pageHeight);
    report := None;
    if startDate.None? || endDate.None? {
      assert outcome == MissingDates;
      toast := Error("Please select both a start and an end date.");
      return;
    }
    var start, end := startDate.value, endDate.value;
    if Precedes(end, start) {
      assert outcome == EndBeforeStart;
      toast := Error("End date cannot be before start date.");
      return;
    }
    var filtered := Selected(expenses, start, end);
    if |filtered| == 0 {
      assert outcome == NothingInRange;
      toast := Info("No expenses found for the selected date range.");
      return;
    }
    var doc := WriteReport(filtered, start, end, pageHeight);
    report := Some(doc);
    toast := Success("Spending report downloaded successfully!");
  }
}
