/** Calendar dates as the pages hold them (`datetime.date`), the ISO text they
    are stored as in `transactions.transaction_date`, SQLite's `strftime`
    fields of that text, and the date windows the pages query with. */
module Dates {
  import opened Wrappers
  import opened Text

  /** A `datetime.date`. */
  datatype Date = Date(year: int, month: int, day: int)

  predicate IsLeapYear(y: int)
  {
    y % 4 == 0 && (y % 100 != 0 || y % 400 == 0)
  }

  function DaysInMonth(y: int, m: int): int
  {
    if m == 2 then (if IsLeapYear(y) then 29 else 28)
    else if m == 4 || m == 6 || m == 9 || m == 11 then 30
    else 31
  }

  /** A date Python can represent: years `MINYEAR` (1) to `MAXYEAR` (9999). */
  predicate Valid(d: Date)
  {
    1 <= d.year <= 9999 && 1 <= d.month <= 12 && 1 <= d.day <= DaysInMonth(d.year, d.month)
  }

  /** `d1 < d2` as Python compares dates. */
  predicate Before(d1: Date, d2: Date)
  {
    d1.year < d2.year
    || (d1.year == d2.year && (d1.month < d2.month || (d1.month == d2.month && d1.day < d2.day)))
  }

  const LastDate := Date(9999, 12, 31)

  /** `d + datetime.timedelta(days=1)`; `None` where Python raises
      `OverflowError` (after 9999-12-31). The result is the very next date:
      valid, later than `d`, and no valid date lies strictly between. */
  function NextDay(d: Date): (r: Option<Date>)
    requires Valid(d)
    ensures r == None <==> d == LastDate
    ensures r.Some? ==> Valid(r.value) && Before(d, r.value)
    ensures r.Some? ==> forall e :: Valid(e) && Before(d, e) ==> !Before(e, r.value)
  {
    if d.day < DaysInMonth(d.year, d.month) then Some(Date(d.year, d.month, d.day + 1))
    else if d.month < 12 then Some(Date(d.year, d.month + 1, 1))
    else if d.year < 9999 then Some(Date(d.year + 1, 1, 1))
    else None
  }

  /** `d.strftime("%Y-%m-%d")`, the same text as `str(d)`: the form in which
      the pages store and compare dates. */
  function Format(d: Date): (s: string)
    requires Valid(d)
    ensures |s| == 10
  {
    Pad(d.year, 4) + ("-" + (Pad(d.month, 2) + ("-" + Pad(d.day, 2))))
  }

  /** Comparing the stored texts as SQLite does (BINARY collation) is
      comparing the dates. */
  lemma FormatOrder(d1: Date, d2: Date)
    requires Valid(d1) && Valid(d2)
    ensures Le(Format(d1), Format(d2)) <==> !Before(d2, d1)
  {
    assert Pow10(2) == 100 && Pow10(4) == 10000;
    PadOrder(d1.year, d2.year, 4);
    PadOrder(d1.month, d2.month, 2);
    PadOrder(d1.day, d2.day, 2);
    var dayPart1, dayPart2 := "-" + Pad(d1.day, 2), "-" + Pad(d2.day, 2);
    var monthPart1, monthPart2 := Pad(d1.month, 2) + dayPart1, Pad(d2.month, 2) + dayPart2;
    LeConcat(Pad(d1.year, 4), "-" + monthPart1, Pad(d2.year, 4), "-" + monthPart2);
    LeConcat("-", monthPart1, "-", monthPart2);
    LeConcat(Pad(d1.month, 2), dayPart1, Pad(d2.month, 2), dayPart2);
    LeConcat("-", Pad(d1.day, 2), "-", Pad(d2.day, 2));
  }

  /** Two dates are stored as the same text only if they are the same date. */
  lemma FormatInjective(d1: Date, d2: Date)
    requires Valid(d1) && Valid(d2)
    ensures Format(d1) == Format(d2) <==> d1 == d2
  {
    if Format(d1) == Format(d2) {
      LeReflexive(Format(d1));
      FormatOrder(d1, d2);
      FormatOrder(d2, d1);
    }
  }

  /* ---------------- SQLite strftime on stored text ---------------- */

  /** Text that SQLite's date functions read as `YYYY-MM-DD`: four digits, a
      dash, a month 01-12, a dash, a day 01-31. */
  predicate IsDateText(s: string)
  {
    && |s| == 10 && s[4] == '-' && s[7] == '-'
    && IsDigit(s[0]) && IsDigit(s[1]) && IsDigit(s[2]) && IsDigit(s[3])
    && IsDigit(s[5]) && IsDigit(s[6]) && IsDigit(s[8]) && IsDigit(s[9])
    && Le("01", s[5..7]) && Le(s[5..7], "12")
    && Le("01", s[8..10]) && Le(s[8..10], "31")
  }

  /** `strftime('%m', s)`: the month field, or NULL for text that is not a date. */
  function StrftimeMonth(s: string): Option<string>
  {
    if IsDateText(s) then Some(s[5..7]) else None
  }

  /** `strftime('%Y', s)`: the year field, or NULL for text that is not a date. */
  function StrftimeYear(s: string): Option<string>
  {
    if IsDateText(s) then Some(s[..4]) else None
  }

  /** A stored date is date text whose fields are its month and year,
      zero-padded to two and four digits. */
  lemma FormatFields(d: Date)
    requires Valid(d)
    ensures IsDateText(Format(d))
    ensures StrftimeMonth(Format(d)) == Some(Pad(d.month, 2))
    ensures StrftimeYear(Format(d)) == Some(Pad(d.year, 4))
  {
    var s := Format(d);
    assert s[..4] == Pad(d.year, 4);
    assert s[5..7] == Pad(d.month, 2);
    assert s[8..10] == Pad(d.day, 2);
    assert Pow10(2) == 100;
    assert "01" == Pad(1, 2) && "12" == Pad(12, 2) && "31" == Pad(31, 2);
    PadOrder(1, d.month, 2);
    PadOrder(d.month, 12, 2);
    PadOrder(1, d.day, 2);
    PadOrder(d.day, 31, 2);
  }

  /** The period test of the spent-per-category query,
      `strftime('%m', date) = f'{month:02}' AND strftime('%Y', date) = str(year)`,
      holds for a stored date exactly when the date lies in that month of that
      year, and never for a year below 1000: `str(year)` then has fewer than
      the four digits `strftime('%Y')` prints. */
  lemma PeriodMatch(d: Date, month: int, year: int)
    requires Valid(d)
    ensures (StrftimeMonth(Format(d)) == Some(ZeroPad2(month))
             && StrftimeYear(Format(d)) == Some(IntText(year)))
        <==> (d.month == month && d.year == year && year >= 1000)
  {
    FormatFields(d);
    assert Pow10(2) == 100 && Pow10(3) == 1000 && Pow10(4) == 10000;
    ZeroPad2Matches(month, d.month);
    if year < 0 {
      assert IntText(year)[0] == '-' && IsDigit(Pad(d.year, 4)[0]);
    } else if year < 1000 {
      DecimalWidth(year, 3);
    } else if year < 10000 {
      FourDigitDecimal(year);
      PadOrder(year, d.year, 4);
    } else {
      DecimalWidth(year, 4);
    }
  }

  /* ---------------- The windows the pages query with ---------------- */

  /** The bounds the Transactions and Dashboard pages pass to the inclusive
      SQL `BETWEEN`: the start date and the day AFTER the end date. `None`
      where computing the day after overflows. */
  function PageWindow(start: Date, end: Date): Option<(string, string)>
    requires Valid(start) && Valid(end)
  {
    match NextDay(end)
    case None => None
    case Some(next) => Some((Format(start), Format(next)))
  }

  /** As written, the page window admits a stored date exactly when it lies
      between the start and end dates OR is the day after the end date. */
  lemma PageWindowAdmits(start: Date, end: Date, d: Date)
    requires Valid(start) && Valid(end) && Valid(d)
    requires PageWindow(start, end).Some?
    ensures var w := PageWindow(start, end).value;
      Between(Format(d), w.0, w.1)
      <==> !Before(d, start) && (!Before(end, d) || NextDay(end) == Some(d))
  {
    var next := NextDay(end).value;
    FormatOrder(start, d);
    FormatOrder(d, next);
  }

  /** The as-written window in action: the March 2024 window also returns a
      transaction dated 2024-04-01. */
  lemma PageWindowCounterexample()
    ensures var start, end, d := Date(2024, 3, 1), Date(2024, 3, 31), Date(2024, 4, 1);
      Valid(start) && Valid(end) && Valid(d) && Before(end, d)
      && PageWindow(start, end).Some?
      && Between(Format(d), PageWindow(start, end).value.0, PageWindow(start, end).value.1)
  {
    var start, end, d := Date(2024, 3, 1), Date(2024, 3, 31), Date(2024, 4, 1);
    assert NextDay(end) == Some(d);
    PageWindowAdmits(start, end, d);
  }

  /** The window the pages evidently intend: the start and end dates
      themselves, since `BETWEEN` already includes both ends. */
  function InclusiveWindow(start: Date, end: Date): (string, string)
    requires Valid(start) && Valid(end)
  {
    (Format(start), Format(end))
  }

  /** The intended window admits a stored date exactly when it lies between
      the start and end dates, both included. */
  lemma InclusiveWindowExact(start: Date, end: Date, d: Date)
    requires Valid(start) && Valid(end) && Valid(d)
    ensures var w := InclusiveWindow(start, end);
      Between(Format(d), w.0, w.1) <==> !Before(d, start) && !Before(end, d)
  {
    FormatOrder(start, d);
    FormatOrder(d, end);
  }
}
