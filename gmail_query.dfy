/**
 * GmailService.build_gamil_search_query: optional free text, subject and date bounds
 * serialised to Gmail's search grammar. The end bound is exclusive in Gmail, so the
 * day after the requested end date is sent.
 */
module GmailQuery {
  import opened Outcomes
  import opened Text
  import opened Calendar
  import opened DateText

  /** Python truthiness of an optional str argument: None and "" are both false. */
  predicate Given(s: Option<string>)
  {
    s.Some? && s.value != ""
  }

  /** Python truthiness of the optional relative_days argument: None and 0 are false. */
  predicate GivenDays(n: Option<int>)
  {
    n.Some? && n.value != 0
  }

  predicate ValidBound(d: Option<Date>)
  {
    d.Some? ==> Valid(d.value)
  }

  function TextClause(searchText: Option<string>): string
  {
    if Given(searchText) then searchText.value + " " else ""
  }

  function SubjectClause(subject: Option<string>): string
  {
    if Given(subject) then "subject:(" + subject.value + ") " else ""
  }

  function AfterClause(startDate: Option<Date>): string
    requires ValidBound(startDate)
  {
    if startDate.Some? then "after:" + FormatPadded(startDate.value, '/') + " " else ""
  }

  /** The before: clause for an end date: Gmail's bound is exclusive, so it names the next day. */
  function BeforeClause(endDate: Date): Result<string>
    requires Valid(endDate)
  {
    match AddDays(endDate, 1)
    case None => Err(DateOverflow)
    case Some(e) => Ok("before:" + FormatPadded(e, '/') + " ")
  }

  /**
   * The two readings of datetime.today() the relative_days branch takes, in
   * order: the first is shifted back for after:, the second is sent as before:.
   * Across midnight they are different days.
   */
  datatype Clock = Clock(first: Date, second: Date)

  predicate ValidClock(clock: Clock)
  {
    Valid(clock.first) && Valid(clock.second)
  }

  /** The window of the last n days, used when no date bound is given. */
  function RelativeClause(clock: Clock, n: int): Result<string>
    requires ValidClock(clock)
  {
    match AddDays(clock.first, -n)
    case None => Err(DateOverflow)
    case Some(s) => Ok("after:" + FormatPadded(s, '/') + " before:" + FormatPadded(clock.second, '/'))
  }

  /** q followed by a clause that may have failed to compute. */
  function Then(q: string, clause: Result<string>): Result<string>
  {
    match clause
    case Err(e) => Err(e)
    case Ok(c) => Ok(q + c)
  }

  /**
   * The query string. `clock` holds the two readings of datetime.today() the
   * source takes when only relative_days is given. Err(DateOverflow) where Python's date
   * arithmetic raises OverflowError.
   */
  function BuildGmailSearchQuery(clock: Clock, searchText: Option<string>, subject: Option<string>,
                                 startDate: Option<Date>, endDate: Option<Date>,
                                 relativeDays: Option<int>): Result<string>
    requires ValidClock(clock) && ValidBound(startDate) && ValidBound(endDate)
  {
    var q := TextClause(searchText) + SubjectClause(subject);
    if startDate.Some? || endDate.Some? then
      var q' := q + AfterClause(startDate);
      if endDate.None? then Ok(q') else Then(q', BeforeClause(endDate.value))
    else if GivenDays(relativeDays) then
      Then(q, RelativeClause(clock, relativeDays.value))
    else
      Ok(q)
  }

  /** The date clauses alone: what follows the text and subject clauses. */
  function DateClauses(clock: Clock, startDate: Option<Date>, endDate: Option<Date>, relativeDays: Option<int>): Result<string>
    requires ValidClock(clock) && ValidBound(startDate) && ValidBound(endDate)
  {
    if startDate.Some? || endDate.Some? then
      if endDate.None? then Ok(AfterClause(startDate)) else Then(AfterClause(startDate), BeforeClause(endDate.value))
    else if GivenDays(relativeDays) then RelativeClause(clock, relativeDays.value)
    else Ok("")
  }

  /** The query is the text and subject clauses followed by the date clauses. */
  lemma QueryJoin(clock: Clock, searchText: Option<string>, subject: Option<string>,
                  startDate: Option<Date>, endDate: Option<Date>, relativeDays: Option<int>)
    requires ValidClock(clock) && ValidBound(startDate) && ValidBound(endDate)
    ensures BuildGmailSearchQuery(clock, searchText, subject, startDate, endDate, relativeDays)
         == Then(TextClause(searchText) + SubjectClause(subject), DateClauses(clock, startDate, endDate, relativeDays))
  {
    var q := TextClause(searchText) + SubjectClause(subject);
    if endDate.Some? {
      EndBoundJoin(q, AfterClause(startDate), BeforeClause(endDate.value));
    } else if startDate.None? && !GivenDays(relativeDays) {
      assert q + "" == q;
    }
  }

  /** Appending the after: clause, then a before: clause, appends both at once. */
  lemma EndBoundJoin(q: string, a: string, b: Result<string>)
    ensures Then(q + a, b) == Then(q, Then(a, b))
  {
    if b.Ok? {
      assert q + a + b.value == q + (a + b.value);
    }
  }

  /** The date clauses are empty exactly when no date argument is truthy. */
  lemma DateClausesEmptyIff(clock: Clock, startDate: Option<Date>, endDate: Option<Date>, relativeDays: Option<int>)
    requires ValidClock(clock) && ValidBound(startDate) && ValidBound(endDate)
    ensures DateClauses(clock, startDate, endDate, relativeDays) == Ok("")
        <==> startDate.None? && endDate.None? && !GivenDays(relativeDays)
  {
    var d := DateClauses(clock, startDate, endDate, relativeDays);
    if d.Ok? && (startDate.Some? || endDate.Some? || GivenDays(relativeDays)) {
      if startDate.Some? {
        var a := AfterClause(startDate);
        assert a[..6] == "after:";
        assert d.value[..|a|] == a;
      } else if endDate.Some? {
        assert |d.value| > 0;
      } else {
        assert |d.value| > 0;
      }
    }
  }

  /** The query is empty exactly when no argument is truthy. */
  lemma QueryEmptyIff(clock: Clock, searchText: Option<string>, subject: Option<string>,
                      startDate: Option<Date>, endDate: Option<Date>, relativeDays: Option<int>)
    requires ValidClock(clock) && ValidBound(startDate) && ValidBound(endDate)
    ensures BuildGmailSearchQuery(clock, searchText, subject, startDate, endDate, relativeDays) == Ok("")
        <==> !Given(searchText) && !Given(subject) && startDate.None? && endDate.None? && !GivenDays(relativeDays)
  {
    QueryJoin(clock, searchText, subject, startDate, endDate, relativeDays);
    DateClausesEmptyIff(clock, startDate, endDate, relativeDays);
    var t, s := TextClause(searchText), SubjectClause(subject);
    var d := DateClauses(clock, startDate, endDate, relativeDays);
    if d.Ok? {
      assert |t + s + d.value| == |t| + |s| + |d.value|;
    }
    assert Given(searchText) <==> |t| > 0;
    assert Given(subject) <==> |s| > 0;
  }

  /** Free text first, then the subject clause: the query opens with them, in that order. */
  lemma QueryPrefix(clock: Clock, searchText: Option<string>, subject: Option<string>,
                    startDate: Option<Date>, endDate: Option<Date>, relativeDays: Option<int>)
    requires ValidClock(clock) && ValidBound(startDate) && ValidBound(endDate)
    requires BuildGmailSearchQuery(clock, searchText, subject, startDate, endDate, relativeDays).Ok?
    ensures var q := BuildGmailSearchQuery(clock, searchText, subject, startDate, endDate, relativeDays).value;
      var t, s := TextClause(searchText), SubjectClause(subject);
      |t| + |s| <= |q| && q[..|t|] == t && q[|t|..|t| + |s|] == s
  {
    QueryJoin(clock, searchText, subject, startDate, endDate, relativeDays);
    var t, s := TextClause(searchText), SubjectClause(subject);
    var d := DateClauses(clock, startDate, endDate, relativeDays).value;
    var q := t + s + d;
    assert q[..|t|] == t;
    assert q[|t|..|t| + |s|] == s;
  }

  /** The after: clause carries the start date itself, readable back with strptime. */
  lemma AfterClauseCarriesStart(d: Date)
    requires Valid(d)
    ensures var a := AfterClause(Some(d));
      |a| == 17 && a[..6] == "after:" && ParseDate(a[6..16], '/') == Some(d) && a[16] == ' '
  {
    var a := AfterClause(Some(d));
    assert a[6..16] == FormatPadded(d, '/');
    ParseFormatPadded(d, '/');
  }

  /**
   * The before: clause names the day after the end date: the date whose day number
   * is one larger, with month, year and leap-day rollover; strptime reads it back.
   * It fails exactly for 9999-12-31.
   */
  lemma BeforeClauseIsNextDay(endDate: Date, next: Date)
    requires Valid(endDate) && Valid(next) && ToOrdinal(next) == ToOrdinal(endDate) + 1
    ensures BeforeClause(endDate) == Ok("before:" + FormatPadded(next, '/') + " ")
    ensures var b := BeforeClause(endDate).value; |b| == 18 && ParseDate(b[7..17], '/') == Some(next)
  {
    AddDaysUnique(endDate, 1, next);
    var b := "before:" + FormatPadded(next, '/') + " ";
    assert b[7..17] == FormatPadded(next, '/');
    ParseFormatPadded(next, '/');
  }

  /** With an end date, the query is the text and subject clauses, the after: clause if any, and the before: clause of the next day. */
  lemma DateBoundQuery(clock: Clock, searchText: Option<string>, subject: Option<string>,
                       startDate: Option<Date>, endDate: Date, relativeDays: Option<int>, next: Date)
    requires ValidClock(clock) && ValidBound(startDate) && Valid(endDate)
    requires Valid(next) && ToOrdinal(next) == ToOrdinal(endDate) + 1
    ensures BuildGmailSearchQuery(clock, searchText, subject, startDate, Some(endDate), relativeDays)
         == Ok(TextClause(searchText) + SubjectClause(subject) + AfterClause(startDate) +
               "before:" + FormatPadded(next, '/') + " ")
  {
    var p := TextClause(searchText) + SubjectClause(subject) + AfterClause(startDate);
    var b := "before:" + FormatPadded(next, '/') + " ";
    assert BeforeClause(endDate) == Ok(b) by { BeforeClauseIsNextDay(endDate, next); }
    assert p + b == p + "before:" + FormatPadded(next, '/') + " ";
  }

  lemma EndOfTimeOverflows(clock: Clock, searchText: Option<string>, subject: Option<string>,
                           startDate: Option<Date>, relativeDays: Option<int>)
    requires ValidClock(clock) && ValidBound(startDate)
    ensures BuildGmailSearchQuery(clock, searchText, subject, startDate, Some(LastDate), relativeDays) == Err(DateOverflow)
  {
    LastOrdinal(LastDate);
  }

  /** Once either date bound is given, relative_days and the clock play no part. */
  lemma RelativeDaysIgnored(clock: Clock, clock': Clock, searchText: Option<string>, subject: Option<string>,
                            startDate: Option<Date>, endDate: Option<Date>, relativeDays: Option<int>,
                            relativeDays': Option<int>)
    requires ValidClock(clock) && ValidClock(clock') && ValidBound(startDate) && ValidBound(endDate)
    requires startDate.Some? || endDate.Some?
    ensures BuildGmailSearchQuery(clock, searchText, subject, startDate, endDate, relativeDays)
         == BuildGmailSearchQuery(clock', searchText, subject, startDate, endDate, relativeDays')
  {
  }

  /**
   * How a query ends: in the date of the clock's second reading (a relative window), or else in a space
   * unless it is empty.
   */
  predicate QueryTail(q: string, clock: Clock, relative: bool)
    requires ValidClock(clock)
  {
    if relative then |q| >= 10 && q[|q| - 10..] == FormatPadded(clock.second, '/') && IsDigit(q[|q| - 1])
    else q == "" || q[|q| - 1] == ' '
  }

  /**
   * Without date bounds, the query either is empty or ends in a space; with only
   * relative_days it ends in the digits of the date before: names instead.
   */
  lemma TrailingSpace(clock: Clock, searchText: Option<string>, subject: Option<string>,
                      startDate: Option<Date>, endDate: Option<Date>, relativeDays: Option<int>)
    requires ValidClock(clock) && ValidBound(startDate) && ValidBound(endDate)
    requires BuildGmailSearchQuery(clock, searchText, subject, startDate, endDate, relativeDays).Ok?
    ensures QueryTail(BuildGmailSearchQuery(clock, searchText, subject, startDate, endDate, relativeDays).value,
                      clock, startDate.None? && endDate.None? && GivenDays(relativeDays))
  {
    QueryJoin(clock, searchText, subject, startDate, endDate, relativeDays);
    var q := TextClause(searchText) + SubjectClause(subject);
    LastSpaceJoin(TextClause(searchText), SubjectClause(subject));
    DateClausesTail(clock, q, startDate, endDate, relativeDays);
  }

  /** The tail TrailingSpace describes, for any prefix q that is empty or ends in a space. */
  lemma DateClausesTail(clock: Clock, q: string, startDate: Option<Date>, endDate: Option<Date>, relativeDays: Option<int>)
    requires ValidClock(clock) && ValidBound(startDate) && ValidBound(endDate)
    requires q == "" || q[|q| - 1] == ' '
    requires DateClauses(clock, startDate, endDate, relativeDays).Ok?
    ensures QueryTail(q + DateClauses(clock, startDate, endDate, relativeDays).value,
                      clock, startDate.None? && endDate.None? && GivenDays(relativeDays))
  {
    var d := DateClauses(clock, startDate, endDate, relativeDays).value;
    if startDate.None? && endDate.None? && GivenDays(relativeDays) {
      RelativeClauseEnds(clock, relativeDays.value);
      SuffixJoin(q, d);
    } else {
      DateClausesEndInSpace(clock, startDate, endDate, relativeDays);
      LastSpaceJoin(q, d);
    }
  }

  /** Two strings that are empty or end in a space join into one that is too. */
  lemma LastSpaceJoin(q: string, d: string)
    requires q == "" || q[|q| - 1] == ' '
    requires d == "" || d[|d| - 1] == ' '
    ensures q + d == "" || (q + d)[|q + d| - 1] == ' '
  {
    if d == "" {
      assert q + d == q;
    }
  }

  /** Text put in front of d keeps d's last ten characters at the end. */
  lemma SuffixJoin(q: string, d: string)
    requires |d| >= 10
    ensures |q + d| >= 10 && (q + d)[|q + d| - 10..] == d[|d| - 10..] && (q + d)[|q + d| - 1] == d[|d| - 1]
  {
  }

  /** The window clause ends in the second reading's date, whose last character is a digit. */
  lemma RelativeClauseEnds(clock: Clock, n: int)
    requires ValidClock(clock) && RelativeClause(clock, n).Ok?
    ensures var c := RelativeClause(clock, n).value;
      |c| >= 10 && c[|c| - 10..] == FormatPadded(clock.second, '/') && IsDigit(c[|c| - 1])
  {
    FormatPaddedEndsInDigit(clock.second, '/');
  }

  /** Date clauses built from date bounds, or absent, are empty or end in a space. */
  lemma DateClausesEndInSpace(clock: Clock, startDate: Option<Date>, endDate: Option<Date>, relativeDays: Option<int>)
    requires ValidClock(clock) && ValidBound(startDate) && ValidBound(endDate)
    requires !(startDate.None? && endDate.None? && GivenDays(relativeDays))
    requires DateClauses(clock, startDate, endDate, relativeDays).Ok?
    ensures var d := DateClauses(clock, startDate, endDate, relativeDays).value;
      d == "" || d[|d| - 1] == ' '
  {
    if endDate.Some? {
      var b := BeforeClause(endDate.value).value;
      assert b[|b| - 1] == ' ';
    }
  }

  /** The formatted date ends in the last digit of the day. */
  lemma FormatPaddedEndsInDigit(d: Date, sep: char)
    requires Valid(d)
    ensures IsDigit(FormatPadded(d, sep)[9])
  {
    ZeroPad2Fields(d.day);
  }

  /**
   * With only relative_days = n, the window runs from n days before the first
   * reading up to the second reading.
   */
  lemma RelativeWindow(clock: Clock, searchText: Option<string>, subject: Option<string>, n: int, start: Date)
    requires ValidClock(clock) && Valid(start) && n != 0
    requires ToOrdinal(start) + n == ToOrdinal(clock.first)
    ensures BuildGmailSearchQuery(clock, searchText, subject, None, None, Some(n))
         == Ok(TextClause(searchText) + SubjectClause(subject) +
               ("after:" + FormatPadded(start, '/') + " before:" + FormatPadded(clock.second, '/')))
  {
    RelativeOnlyQuery(clock, searchText, subject, n);
    RelativeClauseFrom(clock, n, start);
  }

  /** With only relative_days given, the query is the text and subject clauses followed by the window. */
  lemma RelativeOnlyQuery(clock: Clock, searchText: Option<string>, subject: Option<string>, n: int)
    requires ValidClock(clock) && n != 0
    ensures BuildGmailSearchQuery(clock, searchText, subject, None, None, Some(n))
         == Then(TextClause(searchText) + SubjectClause(subject), RelativeClause(clock, n))
  {
  }

  /** after: names the day n days before the first reading; before: names the second reading. */
  lemma RelativeClauseFrom(clock: Clock, n: int, start: Date)
    requires ValidClock(clock) && Valid(start) && ToOrdinal(start) + n == ToOrdinal(clock.first)
    ensures RelativeClause(clock, n) == Ok("after:" + FormatPadded(start, '/') + " before:" + FormatPadded(clock.second, '/'))
  {
    assert AddDays(clock.first, -n) == Some(start) by { AddDaysUnique(clock.first, -n, start); }
  }

  // ---------------------------------------------------------------------------
  // Worked cases

  /** With only an end date, the query is the before: clause alone. */
  lemma EndDateOnlyQuery(clock: Clock, endDate: Date, next: Date)
    requires ValidClock(clock) && Valid(endDate) && NextDay(endDate) == Some(next)
    ensures BuildGmailSearchQuery(clock, None, None, None, Some(endDate), None)
         == Ok("before:" + FormatPadded(next, '/') + " ")
  {
    var f := FormatPadded(next, '/');
    var p := TextClause(None) + SubjectClause(None) + AfterClause(None);
    assert BuildGmailSearchQuery(clock, None, None, None, Some(endDate), None) == Ok(p + "before:" + f + " ") by {
      DateBoundQuery(clock, None, None, None, endDate, None, next);
    }
    assert p == "";
    assert p + "before:" + f + " " == "before:" + f + " ";
  }

  lemma LeapDayRollover()
    ensures BuildGmailSearchQuery(Clock(Date(2024, 3, 1), Date(2024, 3, 1)), None, None, None, Some(Date(2024, 2, 28)), None)
         == Ok("before:" + "2024/02/29" + " ")
  {
    assert FormatPadded(Date(2024, 2, 29), '/') == "2024/02/29" by {
      ZeroPad4Fields(2024);
      ZeroPad2Fields(2);
      ZeroPad2Fields(29);
    }
    assert NextDay(Date(2024, 2, 28)) == Some(Date(2024, 2, 29));
    EndDateOnlyQuery(Clock(Date(2024, 3, 1), Date(2024, 3, 1)), Date(2024, 2, 28), Date(2024, 2, 29));
  }

  lemma YearRollover()
    ensures BuildGmailSearchQuery(Clock(Date(2024, 1, 2), Date(2024, 1, 2)), None, None, None, Some(Date(2023, 12, 31)), None)
         == Ok("before:" + "2024/01/01" + " ")
  {
    assert FormatPadded(Date(2024, 1, 1), '/') == "2024/01/01" by {
      ZeroPad4Fields(2024);
      ZeroPad2Fields(1);
    }
    assert NextDay(Date(2023, 12, 31)) == Some(Date(2024, 1, 1));
    EndDateOnlyQuery(Clock(Date(2024, 1, 2), Date(2024, 1, 2)), Date(2023, 12, 31), Date(2024, 1, 1));
  }
  /**
   * relative_days = 1 with the first reading on 2024-03-31 and the second, past
   * midnight, on 2024-04-01: the window spans two days.
   */
  lemma MidnightWindow()
    ensures BuildGmailSearchQuery(Clock(Date(2024, 3, 31), Date(2024, 4, 1)), None, None, None, None, Some(1))
         == Ok("after:" + FormatPadded(Date(2024, 3, 30), '/') + " before:" + FormatPadded(Date(2024, 4, 1), '/'))
  {
    var first, second, start := Date(2024, 3, 31), Date(2024, 4, 1), Date(2024, 3, 30);
    DayBeforeInMonth(first);
    RelativeWindow(Clock(first, second), None, None, 1, start);
    var w := "after:" + FormatPadded(start, '/') + " before:" + FormatPadded(second, '/');
    assert TextClause(None) + SubjectClause(None) + w == w;
  }

  /** Within a month, the day before has the ordinal one less. */
  lemma DayBeforeInMonth(d: Date)
    requires Valid(d) && d.day > 1
    ensures Valid(Date(d.year, d.month, d.day - 1)) && ToOrdinal(Date(d.year, d.month, d.day - 1)) + 1 == ToOrdinal(d)
  {
  }
}
