/**
 * The text forms of dates the robot writes and reads: strftime with "%Y/%m/%d",
 * "%Y/%-m/%-d" and "%Y/%-m/%-d %p %I:%M:%S" (C locale), and
 * datetime.strptime(text, "%Y-%m-%d").
 */
module DateText {
  import opened Outcomes
  import opened Text
  import opened Calendar

  /** strftime("%Y" + sep + "%m" + sep + "%d"): every field zero padded. */
  function FormatPadded(d: Date, sep: char): (s: string)
    requires Valid(d)
    ensures |s| == 10 && s[4] == sep && s[7] == sep
  {
    ZeroPad(d.year, 4) + [sep] + ZeroPad(d.month, 2) + [sep] + ZeroPad(d.day, 2)
  }

  /** strftime("%Y/%-m/%-d"): month and day without padding (a glibc extension). */
  function FormatUnpadded(d: Date): string
    requires Valid(d)
  {
    ZeroPad(d.year, 4) + "/" + NatToString(d.month) + "/" + NatToString(d.day)
  }

  // ---------------------------------------------------------------------------
  // datetime.strptime(text, "%Y<sep>%m<sep>%d")

  /** The %m field, regular expression 1[0-2]|0[1-9]|[1-9]. */
  function MonthField(t: string): (r: Option<int>)
    ensures r.Some? ==> 1 <= r.value <= 12
  {
    if |t| == 2 && ((t[0] == '1' && '0' <= t[1] <= '2') || (t[0] == '0' && '1' <= t[1] <= '9')) then
      Some(10 * DigitValue(t[0]) + DigitValue(t[1]))
    else if |t| == 1 && '1' <= t[0] <= '9' then Some(DigitValue(t[0]))
    else None
  }

  /** The %d field, regular expression 3[01]|[12]\d|0[1-9]|[1-9]| [1-9]. */
  function DayField(t: string): (r: Option<int>)
    ensures r.Some? ==> 1 <= r.value <= 31
  {
    if |t| == 2 && ((t[0] == '3' && '0' <= t[1] <= '1') || ('1' <= t[0] <= '2' && IsDigit(t[1])) ||
                    (t[0] == '0' && '1' <= t[1] <= '9')) then
      Some(10 * DigitValue(t[0]) + DigitValue(t[1]))
    else if |t| == 2 && t[0] == ' ' && '1' <= t[1] <= '9' then Some(DigitValue(t[1]))
    else if |t| == 1 && '1' <= t[0] <= '9' then Some(DigitValue(t[0]))
    else None
  }

  /**
   * datetime.strptime(text, "%Y<sep>%m<sep>%d").date(); None where Python raises
   * ValueError (text does not match, unconverted data remains, or no such day).
   * %Y takes exactly four digits; %m takes two characters when they form a month
   * followed by the separator, one otherwise; %d must take all that remains.
   */
  function ParseDate(text: string, sep: char): (r: Option<Date>)
    requires sep == '-' || sep == '/'
    ensures r.Some? ==> Valid(r.value)
  {
    if |text| < 5 || !AllDigits(text[..4]) || text[4] != sep then None
    else
      var rest := text[5..];
      var width :=
        if |rest| >= 3 && MonthField(rest[..2]).Some? && rest[2] == sep then 2
        else if |rest| >= 2 && MonthField(rest[..1]).Some? && rest[1] == sep then 1
        else 0;
      if width == 0 then None
      else
        match (MonthField(rest[..width]), DayField(rest[width + 1..]))
        case (Some(m), Some(dd)) =>
          var d := Date(DigitsValue(text[..4]), m, dd);
          if Valid(d) then Some(d) else None
        case _ => None
  }

  /** The digits of a two-digit field, most significant first. */
  lemma ZeroPad2Fields(n: nat)
    requires n < 100
    ensures ZeroPad(n, 2) == [DigitChar(n / 10), DigitChar(n % 10)]
  {
  }

  /** The digits of a four-digit field, most significant first. */
  lemma ZeroPad4Fields(n: nat)
    requires n < 10000
    ensures ZeroPad(n, 4) == [DigitChar(n / 1000), DigitChar(n / 100 % 10), DigitChar(n / 10 % 10), DigitChar(n % 10)]
  {
    assert n / 10 / 10 == n / 100 && n / 100 / 10 == n / 1000;
    ZeroPad2Fields(n / 100);
    assert ZeroPad(n / 10, 3) == ZeroPad(n / 100, 2) + [DigitChar(n / 10 % 10)];
  }

  /** A four-digit year, a two-character month and a day field, joined by the separator, parse field by field. */
  lemma {:induction false} ParseDateOfFields(y: string, m: string, dd: string, sep: char)
    requires sep == '-' || sep == '/'
    requires |y| == 4 && AllDigits(y) && |m| == 2 && MonthField(m).Some? && DayField(dd).Some?
    ensures var d := Date(DigitsValue(y), MonthField(m).value, DayField(dd).value);
      ParseDate(y + [sep] + m + [sep] + dd, sep) == if Valid(d) then Some(d) else None
  {
    var s := y + [sep] + m + [sep] + dd;
    assert s[..4] == y && s[4] == sep;
    var rest := s[5..];
    assert rest == m + [sep] + dd;
    assert rest[..2] == m && rest[2] == sep && rest[3..] == dd;
  }

  /** strptime reads back what strftime wrote: the padded form loses nothing. */
  lemma {:induction false} ParseFormatPadded(d: Date, sep: char)
    requires Valid(d) && (sep == '-' || sep == '/')
    ensures ParseDate(FormatPadded(d, sep), sep) == Some(d)
  {
    var y, m, dd := ZeroPad(d.year, 4), ZeroPad(d.month, 2), ZeroPad(d.day, 2);
    ZeroPad2Fields(d.month);
    ZeroPad2Fields(d.day);
    assert MonthField(m) == Some(d.month);
    assert DayField(dd) == Some(d.day);
    ParseDateOfFields(y, m, dd, sep);
  }

  /** str(n) of a number below 100: one digit, or two with no leading zero. */
  lemma NatToStringSmall(n: nat)
    requires n < 100
    ensures n < 10 ==> NatToString(n) == [DigitChar(n)]
    ensures n >= 10 ==> NatToString(n) == [DigitChar(n / 10), DigitChar(n % 10)]
  {
  }

  /** The %m field reads back the unpadded month strftime("%-m") wrote. */
  lemma MonthFieldOfUnpadded(m: int)
    requires 1 <= m <= 12
    ensures MonthField(NatToString(m)) == Some(m)
  {
    NatToStringSmall(m);
  }

  /** The %d field reads back the unpadded day strftime("%-d") wrote. */
  lemma DayFieldOfUnpadded(d: int)
    requires 1 <= d <= 31
    ensures DayField(NatToString(d)) == Some(d)
  {
    NatToStringSmall(d);
  }

  /**
   * The unpadded date the sheet receives still reads back as the same day:
   * strptime's %m and %d also accept one-digit fields.
   */
  lemma {:induction false} ParseFormatUnpadded(d: Date)
    requires Valid(d)
    ensures ParseDate(FormatUnpadded(d), '/') == Some(d)
  {
    var y, m, dd := ZeroPad(d.year, 4), NatToString(d.month), NatToString(d.day);
    var s := FormatUnpadded(d);
    assert s == y + "/" + m + "/" + dd;
    assert s[..4] == y && s[4] == '/';
    var rest := s[5..];
    assert rest == m + "/" + dd;
    NatToStringSmall(d.month);
    MonthFieldOfUnpadded(d.month);
    DayFieldOfUnpadded(d.day);
    if d.month >= 10 {
      assert rest[..2] == m && rest[2] == '/' && rest[3..] == dd;
    } else {
      assert rest[..2] == [m[0], '/'];
      assert MonthField(rest[..2]).None?;
      assert rest[..1] == m && rest[1] == '/' && rest[2..] == dd;
    }
  }

  /** Distinct dates print differently. */
  lemma FormatPaddedInjective(a: Date, b: Date, sep: char)
    requires Valid(a) && Valid(b) && (sep == '-' || sep == '/')
    requires FormatPadded(a, sep) == FormatPadded(b, sep)
    ensures a == b
  {
    ParseFormatPadded(a, sep);
    ParseFormatPadded(b, sep);
  }

  // ---------------------------------------------------------------------------
  // Clock time in the C locale

  /** %p */
  function Meridiem(hour: int): string
  {
    if hour < 12 then "AM" else "PM"
  }

  /** %I: the hour on a 12-hour clock. */
  function Hour12(hour: int): (h: int)
    requires 0 <= hour < 24
    ensures 1 <= h <= 12
  {
    if hour % 12 == 0 then 12 else hour % 12
  }

  /** The 24-hour reading a (%p, %I) pair stands for. */
  function Hour24(meridiem: string, h: int): int
  {
    h % 12 + (if meridiem == "PM" then 12 else 0)
  }

  /** %p and %I together lose no information about the hour. */
  lemma ClockRoundTrip(hour: int)
    requires 0 <= hour < 24
    ensures Hour24(Meridiem(hour), Hour12(hour)) == hour
  {
  }

  /** strftime("%Y/%-m/%-d %p %I:%M:%S") */
  function FormatTimestamp(t: DateTime): (s: string)
    requires ValidDateTime(t)
  {
    FormatUnpadded(t.date) + " " + Meridiem(t.hour) + " " + ZeroPad(Hour12(t.hour), 2) + ":" +
    ZeroPad(t.minute, 2) + ":" + ZeroPad(t.second, 2)
  }
}
