/** Calendar days and the three date formats the application prints with date-fns:
    `yyyy-MM-dd` (stored dates, report file name), `MMM dd` and `MMM yyyy` (chart keys). */
module Calendar {
  import opened Text

  datatype YMD = YMD(year: int, month: int, day: int)

  predicate IsLeapYear(y: int) {
    y % 4 == 0 && (y % 100 != 0 || y % 400 == 0)
  }

  function DaysInMonth(y: int, m: int): int {
    if m == 2 then (if IsLeapYear(y) then 29 else 28)
    else if m == 4 || m == 6 || m == 9 || m == 11 then 30
    else 31
  }

  predicate IsCalendarDay(d: YMD) {
    0 <= d.year <= 9999 && 1 <= d.month <= 12 && 1 <= d.day <= DaysInMonth(d.year, d.month)
  }

  /** A day as the date pickers produce it and as `yyyy-MM-dd` strings store it. The time of
      day never matters to the application, so it is not represented. */
  type Date = d: YMD | IsCalendarDay(d) witness YMD(1970, 1, 1)

  /** `a` comes strictly before `b` on the calendar. */
  predicate Precedes(a: Date, b: Date) {
    a.year < b.year
    || (a.year == b.year && (a.month < b.month || (a.month == b.month && a.day < b.day)))
  }

  /** A number per day that orders days chronologically; it stands for the timestamp
      `getTime()` of the day's midnight in every comparison the application makes. */
  function DayNumber(d: Date): int {
    d.year * 372 + (d.month - 1) * 31 + (d.day - 1)
  }

  /** `DayNumber` orders days as the calendar does and tells different days apart. */
  lemma DayNumberOrder(a: Date, b: Date)
    ensures DayNumber(a) < DayNumber(b) <==> Precedes(a, b)
    ensures DayNumber(a) == DayNumber(b) <==> a == b
  {
    var ra := (a.month - 1) * 31 + (a.day - 1);
    var rb := (b.month - 1) * 31 + (b.day - 1);
    assert 0 <= ra < 372 && 0 <= rb < 372;
    if a.year < b.year {
      assert a.year * 372 + 372 <= b.year * 372;
    } else if a.year > b.year {
      assert b.year * 372 + 372 <= a.year * 372;
    }
  }

  /** Two decimal digits (`MM`, `dd`). */
  function Pad2(n: nat): (r: string)
    requires n < 100
    ensures |r| == 2
  {
    [DigitChar(n / 10), DigitChar(n % 10)]
  }

  /** Four decimal digits (`yyyy`). */
  function Pad4(n: nat): (r: string)
    requires n < 10000
    ensures |r| == 4
  {
    Pad2(n / 100) + Pad2(n % 100)
  }

  lemma Pad2Injective(a: nat, b: nat)
    requires a < 100 && b < 100
    ensures Pad2(a) == Pad2(b) <==> a == b
  {
    if Pad2(a) == Pad2(b) {
      assert Pad2(a)[0] == Pad2(b)[0] && Pad2(a)[1] == Pad2(b)[1];
      assert a == 10 * (a / 10) + a % 10 && b == 10 * (b / 10) + b % 10;
    }
  }

  lemma Pad4Injective(a: nat, b: nat)
    requires a < 10000 && b < 10000
    ensures Pad4(a) == Pad4(b) <==> a == b
  {
    if Pad4(a) == Pad4(b) {
      assert Pad4(a)[..2] == Pad2(a / 100) && Pad4(b)[..2] == Pad2(b / 100);
      assert Pad4(a)[2..] == Pad2(a % 100) && Pad4(b)[2..] == Pad2(b % 100);
      Pad2Injective(a / 100, b / 100);
      Pad2Injective(a % 100, b % 100);
      assert a == 100 * (a / 100) + a % 100 && b == 100 * (b / 100) + b % 100;
    }
  }

  /** `format(d, "yyyy-MM-dd")`. */
  function Iso(d: Date): (r: string)
    ensures |r| == 10 && r[4] == '-' && r[7] == '-'
  {
    Pad4(d.year) + "-" + Pad2(d.month) + "-" + Pad2(d.day)
  }

  /** Two days print the same `yyyy-MM-dd` text exactly when they are the same day, so
      comparing the formatted strings, as the report filter does, compares days. */
  lemma IsoInjective(a: Date, b: Date)
    ensures Iso(a) == Iso(b) <==> a == b
  {
    if Iso(a) == Iso(b) {
      assert Iso(a)[..4] == Pad4(a.year) && Iso(b)[..4] == Pad4(b.year);
      assert Iso(a)[5..7] == Pad2(a.month) && Iso(b)[5..7] == Pad2(b.month);
      assert Iso(a)[8..] == Pad2(a.day) && Iso(b)[8..] == Pad2(b.day);
      Pad4Injective(a.year, b.year);
      Pad2Injective(a.month, b.month);
      Pad2Injective(a.day, b.day);
    }
  }

  /** `format(d, "MMM")` in the default English locale. */
  function MonthAbbrev(m: int): (r: string)
    requires 1 <= m <= 12
    ensures |r| == 3
  {
    ["Jan", "Feb", "Mar", "Apr", "May", "Jun", "Jul", "Aug", "Sep", "Oct", "Nov", "Dec"][m - 1]
  }

  /** The month an abbreviation names (0 for none), an inverse of `MonthAbbrev`. */
  function MonthOfAbbrev(s: string): int {
    if s == "Jan" then 1 else if s == "Feb" then 2 else if s == "Mar" then 3
    else if s == "Apr" then 4 else if s == "May" then 5 else if s == "Jun" then 6
    else if s == "Jul" then 7 else if s == "Aug" then 8 else if s == "Sep" then 9
    else if s == "Oct" then 10 else if s == "Nov" then 11 else if s == "Dec" then 12
    else 0
  }

  lemma MonthAbbrevInjective(a: int, b: int)
    requires 1 <= a <= 12 && 1 <= b <= 12
    ensures MonthAbbrev(a) == MonthAbbrev(b) <==> a == b
  {
    assert MonthOfAbbrev(MonthAbbrev(a)) == a;
    assert MonthOfAbbrev(MonthAbbrev(b)) == b;
  }

  /** `format(d, "MMM dd")`, e.g. "Jan 05". */
  function MonthDay(d: Date): (r: string)
    ensures |r| == 6
  {
    MonthAbbrev(d.month) + " " + Pad2(d.day)
  }

  /** `format(d, "MMM yyyy")`, e.g. "Jan 2024". */
  function MonthYear(d: Date): (r: string)
    ensures |r| == 8
  {
    MonthAbbrev(d.month) + " " + Pad4(d.year)
  }

  /** "MMM dd" tells days apart by month and day of month only: the year is not in it. */
  lemma MonthDayEqual(a: Date, b: Date)
    ensures MonthDay(a) == MonthDay(b) <==> a.month == b.month && a.day == b.day
  {
    if MonthDay(a) == MonthDay(b) {
      assert MonthDay(a)[..3] == MonthAbbrev(a.month) && MonthDay(b)[..3] == MonthAbbrev(b.month);
      assert MonthDay(a)[4..] == Pad2(a.day) && MonthDay(b)[4..] == Pad2(b.day);
      MonthAbbrevInjective(a.month, b.month);
      Pad2Injective(a.day, b.day);
    }
  }

  /** "MMM yyyy" tells days apart by month and year. */
  lemma MonthYearEqual(a: Date, b: Date)
    ensures MonthYear(a) == MonthYear(b) <==> a.month == b.month && a.year == b.year
  {
    if MonthYear(a) == MonthYear(b) {
      assert MonthYear(a)[..3] == MonthAbbrev(a.month) && MonthYear(b)[..3] == MonthAbbrev(b.month);
      assert MonthYear(a)[4..] == Pad4(a.year) && MonthYear(b)[4..] == Pad4(b.year);
      MonthAbbrevInjective(a.month, b.month);
      Pad4Injective(a.year, b.year);
    }
  }
}
