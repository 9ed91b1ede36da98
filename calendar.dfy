/**
 * Proleptic Gregorian dates as Python's datetime module has them: years 1 to 9999,
 * day numbers ("ordinals") counted from 0001-01-01 = 1, and whole-day arithmetic
 * (date + timedelta(days=n)) that raises OverflowError outside that range.
 */
module Calendar {
  import opened Outcomes

  datatype Date = Date(year: int, month: int, day: int)

  const MinYear := 1
  const MaxYear := 9999
  /** Day number of 9999-12-31, Python's _MAXORDINAL. */
  const MaxOrdinal := 3652059

  predicate IsLeapYear(y: int)
  {
    y % 4 == 0 && (y % 100 != 0 || y % 400 == 0)
  }

  function DaysInYear(y: int): int
  {
    if IsLeapYear(y) then 366 else 365
  }

  /** The length of month m of year y: only February varies, with 29 days exactly in leap years. */
  function DaysInMonth(y: int, m: int): (n: int)
    requires 1 <= m <= 12
    ensures 28 <= n <= 31
    ensures n < 30 <==> m == 2
    ensures m == 2 ==> (n == 29 <==> IsLeapYear(y))
  {
    if m == 2 then (if IsLeapYear(y) then 29 else 28)
    else if m == 4 || m == 6 || m == 9 || m == 11 then 30
    else 31
  }

  predicate Valid(d: Date)
  {
    MinYear <= d.year <= MaxYear && 1 <= d.month <= 12 && 1 <= d.day <= DaysInMonth(d.year, d.month)
  }

  /** Days in the years before y (Python's _days_before_year). */
  function DaysBeforeYear(y: int): int
    requires y >= 1
  {
    var p := y - 1;
    p * 365 + p / 4 - p / 100 + p / 400
  }

  /** Days in the months of year y before month m (Python's _days_before_month). */
  function DaysBeforeMonth(y: int, m: int): int
    requires 1 <= m <= 12
  {
    [0, 31, 59, 90, 120, 151, 181, 212, 243, 273, 304, 334][m - 1] + (if m > 2 && IsLeapYear(y) then 1 else 0)
  }

  /** date.toordinal() */
  function ToOrdinal(d: Date): (n: int)
    requires Valid(d)
    ensures 1 <= n <= MaxOrdinal
  {
    YearSpan(d.year);
    MonthsWithinYear(d.year, d.month);
    DaysBeforeYear(d.year) + DaysBeforeMonth(d.year, d.month) + d.day
  }

  lemma DaysBeforeNextYear(y: int)
    requires y >= 1
    ensures DaysBeforeYear(y + 1) == DaysBeforeYear(y) + DaysInYear(y)
  {
    var p := y - 1;
    assert y / 4 == p / 4 + (if y % 4 == 0 then 1 else 0);
    assert y / 100 == p / 100 + (if y % 100 == 0 then 1 else 0);
    assert y / 400 == p / 400 + (if y % 400 == 0 then 1 else 0);
  }

  lemma {:induction false} DaysBeforeYearGrows(a: int, b: int)
    requires 1 <= a <= b
    ensures DaysBeforeYear(a) + 365 * (b - a) <= DaysBeforeYear(b)
    decreases b - a
  {
    if a < b {
      DaysBeforeYearGrows(a, b - 1);
      DaysBeforeNextYear(b - 1);
    }
  }

  /** Every day of a year y in 1..9999 has a day number between 1 and MaxOrdinal. */
  lemma YearSpan(y: int)
    requires MinYear <= y <= MaxYear
    ensures 0 <= DaysBeforeYear(y)
    ensures DaysBeforeYear(y) + DaysInYear(y) <= MaxOrdinal
  {
    DaysBeforeYearGrows(1, y);
    DaysBeforeNextYear(y);
    DaysBeforeYearGrows(y + 1, MaxYear + 1);
  }

  lemma DaysBeforeNextMonth(y: int, m: int)
    requires 1 <= m < 12
    ensures DaysBeforeMonth(y, m + 1) == DaysBeforeMonth(y, m) + DaysInMonth(y, m)
  {
  }

  lemma {:induction false} MonthsWithinYear(y: int, m: int)
    requires 1 <= m <= 12
    ensures DaysBeforeMonth(y, m) + DaysInMonth(y, m) <= DaysInYear(y)
    ensures m == 12 ==> DaysBeforeMonth(y, m) + DaysInMonth(y, m) == DaysInYear(y)
  {
  }

  lemma {:induction false} MonthsGrow(y: int, m: int, m2: int)
    requires 1 <= m < m2 <= 12
    ensures DaysBeforeMonth(y, m) + DaysInMonth(y, m) <= DaysBeforeMonth(y, m2)
    decreases m2 - m
  {
    DaysBeforeNextMonth(y, m);
    if m + 1 < m2 {
      MonthsGrow(y, m + 1, m2);
    }
  }

  // ---------------------------------------------------------------------------
  // Ordering (Python compares dates as (year, month, day) tuples)

  predicate Before(a: Date, b: Date)
  {
    a.year < b.year || (a.year == b.year && (a.month < b.month || (a.month == b.month && a.day < b.day)))
  }

  /** a <= b on dates */
  predicate OnOrBefore(a: Date, b: Date)
  {
    a == b || Before(a, b)
  }

  /** Day numbers respect the calendar order. */
  lemma OrdinalMonotone(a: Date, b: Date)
    requires Valid(a) && Valid(b) && Before(a, b)
    ensures ToOrdinal(a) < ToOrdinal(b)
  {
    if a.year < b.year {
      MonthsWithinYear(a.year, a.month);
      DaysBeforeNextYear(a.year);
      DaysBeforeYearGrows(a.year + 1, b.year);
    } else if a.month < b.month {
      MonthsGrow(a.year, a.month, b.month);
    }
  }

  /** The comparison of dates is the comparison of their day numbers, in both directions. */
  lemma OrdinalOrder(a: Date, b: Date)
    requires Valid(a) && Valid(b)
    ensures OnOrBefore(a, b) <==> ToOrdinal(a) <= ToOrdinal(b)
    ensures a == b <==> ToOrdinal(a) == ToOrdinal(b)
  {
    if Before(a, b) {
      OrdinalMonotone(a, b);
    } else if Before(b, a) {
      OrdinalMonotone(b, a);
    }
  }

  // ---------------------------------------------------------------------------
  // Whole-day arithmetic

  const LastDate := Date(MaxYear, 12, 31)

  /** d + timedelta(days=1); None where Python raises OverflowError. */
  function NextDay(d: Date): (r: Option<Date>)
    requires Valid(d)
    ensures r.Some? <==> ToOrdinal(d) < MaxOrdinal
    ensures r.Some? ==> Valid(r.value) && ToOrdinal(r.value) == ToOrdinal(d) + 1
  {
    if d.day < DaysInMonth(d.year, d.month) then Some(Date(d.year, d.month, d.day + 1))
    else if d.month < 12 then
      DaysBeforeNextMonth(d.year, d.month);
      assert d != LastDate;
      LastOrdinal(d);
      Some(Date(d.year, d.month + 1, 1))
    else if d.year < MaxYear then
      DaysBeforeNextYear(d.year);
      MonthsWithinYear(d.year, d.month);
      LastOrdinal(d);
      Some(Date(d.year + 1, 1, 1))
    else
      assert d == LastDate;
      None
  }

  /** Every date other than 9999-12-31 lies before it. */
  lemma LastOrdinal(d: Date)
    requires Valid(d)
    ensures ToOrdinal(LastDate) == MaxOrdinal
    ensures d != LastDate ==> ToOrdinal(d) < MaxOrdinal
  {
    assert DaysBeforeYear(MaxYear) == 3651694;
    if d != LastDate {
      assert Before(d, LastDate);
      OrdinalMonotone(d, LastDate);
    }
  }

  /** d - timedelta(days=1); None where Python raises OverflowError. */
  function PrevDay(d: Date): (r: Option<Date>)
    requires Valid(d)
    ensures r.Some? <==> ToOrdinal(d) > 1
    ensures r.Some? ==> Valid(r.value) && ToOrdinal(r.value) == ToOrdinal(d) - 1
  {
    if d.day > 1 then
      YearSpan(d.year);
      Some(Date(d.year, d.month, d.day - 1))
    else if d.month > 1 then
      DaysBeforeNextMonth(d.year, d.month - 1);
      YearSpan(d.year);
      Some(Date(d.year, d.month - 1, DaysInMonth(d.year, d.month - 1)))
    else if d.year > MinYear then
      DaysBeforeNextYear(d.year - 1);
      MonthsWithinYear(d.year - 1, 12);
      YearSpan(d.year);
      Some(Date(d.year - 1, 12, 31))
    else
      None
  }

  /**
   * d + timedelta(days=n). Python computes it through day numbers; the result
   * exists exactly when the day number stays within 1..MaxOrdinal.
   */
  function AddDays(d: Date, n: int): (r: Option<Date>)
    requires Valid(d)
    ensures r.Some? <==> 1 <= ToOrdinal(d) + n <= MaxOrdinal
    ensures r.Some? ==> Valid(r.value) && ToOrdinal(r.value) == ToOrdinal(d) + n
    decreases if n < 0 then -n else n
  {
    if n == 0 then Some(d)
    else if n > 0 then
      match NextDay(d)
      case None => None
      case Some(e) => AddDays(e, n - 1)
    else
      match PrevDay(d)
      case None => None
      case Some(e) => AddDays(e, n + 1)
  }

  /** A date is determined by its day number, so AddDays has exactly one possible answer. */
  lemma AddDaysUnique(d: Date, n: int, e: Date)
    requires Valid(d) && Valid(e) && ToOrdinal(e) == ToOrdinal(d) + n
    ensures AddDays(d, n) == Some(e)
  {
    OrdinalOrder(AddDays(d, n).value, e);
  }

  /** Whole-day steps compose: (d + m days) + n days == d + (m + n) days. */
  lemma AddDaysCompose(d: Date, m: int, n: int)
    requires Valid(d) && AddDays(d, m).Some?
    ensures AddDays(AddDays(d, m).value, n) == AddDays(d, m + n)
  {
    var e := AddDays(d, m).value;
    if AddDays(d, m + n).Some? {
      AddDaysUnique(e, n, AddDays(d, m + n).value);
    }
  }

  /** Subtracting days undoes adding them. */
  lemma AddDaysInverse(d: Date, n: int)
    requires Valid(d) && AddDays(d, n).Some?
    ensures AddDays(AddDays(d, n).value, -n) == Some(d)
  {
    AddDaysBack(AddDays(d, n).value, d, n);
  }

  /** A date k days after d goes back to d in -k days. */
  lemma AddDaysBack(e: Date, d: Date, k: int)
    requires Valid(e) && Valid(d) && ToOrdinal(e) == ToOrdinal(d) + k
    ensures AddDays(e, -k) == Some(d)
  {
    var r := AddDays(e, -k);
    assert r.Some? && ToOrdinal(r.value) == ToOrdinal(d);
    OrdinalOrder(r.value, d);
  }

  // ---------------------------------------------------------------------------
  // Date and time of day (datetime objects; microseconds play no part here)

  datatype DateTime = DateTime(date: Date, hour: int, minute: int, second: int)

  predicate ValidDateTime(t: DateTime)
  {
    Valid(t.date) && 0 <= t.hour < 24 && 0 <= t.minute < 60 && 0 <= t.second < 60
  }

  /** datetime.combine(d, time()) — what strptime gives for a format without a time. */
  function Midnight(d: Date): DateTime
  {
    DateTime(d, 0, 0, 0)
  }
}
