/**
 * The values the three crawlers of rpa_accounting.py derive from the text they
 * find in mails and in the NetiCRM result table: dates, amounts, purposes and
 * upload names. A fragment the crawler looks up is an Option: None is the
 * element that is not there (an IndexError or NoSuchElementException).
 */
module Fields {
  import opened Outcomes
  import opened Text
  import opened Calendar
  import opened DateText

  /** Equal texts that start with the same literal agree after it. */
  lemma AfterLiteral(lit: string, u: string, v: string)
    requires lit + u == lit + v
    ensures u == v
  {
    assert u == (lit + u)[|lit|..];
    assert v == (lit + v)[|lit|..];
  }

  /** Regrouping the last three pieces of a concatenation. */
  lemma JoinTail(p: string, a: string, b: string, c: string)
    ensures p + a + b + c == p + (a + (b + c))
  {
  }

  /** lit1 + x + lit2 + y + z splits one way only when the digit fields x and y end at non-digits. */
  lemma TwoFieldsUnique(lit1: string, x: string, x': string, lit2: string, y: string, y': string, z: string, z': string)
    requires AllDigits(x) && AllDigits(x') && AllDigits(y) && AllDigits(y')
    requires |lit2| > 0 && !IsDigit(lit2[0]) && |z| > 0 && !IsDigit(z[0]) && |z'| > 0 && !IsDigit(z'[0])
    requires lit1 + x + lit2 + y + z == lit1 + x' + lit2 + y' + z'
    ensures x == x' && y == y' && z == z'
  {
    assert lit1 + x + lit2 + y + z == lit1 + (x + (lit2 + y + z));
    assert lit1 + x' + lit2 + y' + z' == lit1 + (x' + (lit2 + y' + z'));
    AfterLiteral(lit1, x + (lit2 + y + z), x' + (lit2 + y' + z'));
    DigitPrefixUnique(x, x', lit2 + y + z, lit2 + y' + z');
    assert lit2 + y + z == lit2 + (y + z);
    assert lit2 + y' + z' == lit2 + (y' + z');
    AfterLiteral(lit2, y + z, y' + z');
    DigitPrefixUnique(y, y', z, z');
  }

  // ---------------------------------------------------------------------------
  // Newebpay invoice: issue date, billing month, purpose and amount

  const IssueDateLocator := "//*[contains(text(),\"開立日期\")]"
  const IsoDatePattern := "\\d{4}-\\d{2}-\\d{2}"

  /** The pattern \d{4}-\d{2}-\d{2} matches at position i. */
  predicate IsoDateAt(t: string, i: nat)
  {
    i + 10 <= |t| && AllDigits(t[i..i + 4]) && t[i + 4] == '-' && AllDigits(t[i + 5..i + 7]) &&
    t[i + 7] == '-' && AllDigits(t[i + 8..i + 10])
  }

  /** The leftmost position from k on where the pattern matches: the first item re.findall returns. */
  function FirstIsoDateFrom(t: string, k: nat): (r: Option<nat>)
    ensures r.Some? ==> k <= r.value && IsoDateAt(t, r.value)
    ensures r.Some? ==> forall j :: k <= j < r.value ==> !IsoDateAt(t, j)
    ensures r.None? ==> forall j: nat :: k <= j ==> !IsoDateAt(t, j)
    decreases |t| - k
  {
    if k + 10 > |t| then None
    else if IsoDateAt(t, k) then Some(k)
    else FirstIsoDateFrom(t, k + 1)
  }

  /** strptime(re.findall(r'\d{4}-\d{2}-\d{2}', text)[0], "%Y-%m-%d") on the text beside 開立日期. */
  function IssueDate(text: Option<string>): (r: Result<Date>)
    ensures r.Ok? ==> Valid(r.value)
  {
    match text
    case None => Err(MissingElement(IssueDateLocator))
    case Some(t) =>
      match FirstIsoDateFrom(t, 0)
      case None => Err(NoMatch(IsoDatePattern, t))
      case Some(i) =>
        match ParseDate(t[i..i + 10], '-')
        case None => Err(BadDate(t[i..i + 10]))
        case Some(d) => Ok(d)
  }

  /** The issue date is read back from a text that shows it after digit-free text. */
  lemma IssueDateOfText(pre: string, d: Date, post: string)
    requires Valid(d)
    requires forall i :: 0 <= i < |pre| ==> !IsDigit(pre[i])
    ensures IssueDate(Some(pre + FormatPadded(d, '-') + post)) == Ok(d)
  {
    var s := FormatPadded(d, '-');
    var t := pre + s + post;
    var p := |pre|;
    assert t[p..p + 10] == s;
    assert s[..4] == ZeroPad(d.year, 4) && s[5..7] == ZeroPad(d.month, 2) && s[8..10] == ZeroPad(d.day, 2);
    assert t[p..p + 4] == s[..4] && t[p + 5..p + 7] == s[5..7] && t[p + 8..p + 10] == s[8..10];
    assert IsoDateAt(t, p);
    forall j | 0 <= j < p
      ensures !IsoDateAt(t, j)
    {
      assert t[j..j + 4][0] == pre[j];
    }
    assert FirstIsoDateFrom(t, 0) == Some(p);
    ParseFormatPadded(d, '-');
  }

  /** date + timedelta(days=-20): the day whose month the invoice's fee belongs to. */
  function BillingDay(issue: Date): (r: Result<Date>)
    requires Valid(issue)
    ensures r.Ok? <==> ToOrdinal(issue) > 20
    ensures r.Err? ==> r.error == DateOverflow
    ensures r.Ok? ==> Valid(r.value) && ToOrdinal(r.value) + 20 == ToOrdinal(issue)
  {
    match AddDays(issue, -20)
    case None => Err(DateOverflow)
    case Some(e) => Ok(e)
  }

  /**
   * Twenty days back stays in the month after the 20th; otherwise it lands in the
   * previous month (December of the previous year in January), on the day that
   * month's length puts it.
   */
  lemma BillingDayRule(issue: Date)
    requires Valid(issue) && ToOrdinal(issue) > 20
    ensures issue.day > 20 ==> BillingDay(issue) == Ok(Date(issue.year, issue.month, issue.day - 20))
    ensures issue.day <= 20 && issue.month > 1 ==>
      BillingDay(issue) ==
        Ok(Date(issue.year, issue.month - 1, DaysInMonth(issue.year, issue.month - 1) + issue.day - 20))
    ensures issue.day <= 20 && issue.month == 1 ==> BillingDay(issue) == Ok(Date(issue.year - 1, 12, issue.day + 11))
  {
    var y, m, d := issue.year, issue.month, issue.day;
    if d > 20 {
      AddDaysUnique(issue, -20, Date(y, m, d - 20));
    } else if m > 1 {
      DaysBeforeNextMonth(y, m - 1);
      AddDaysUnique(issue, -20, Date(y, m - 1, DaysInMonth(y, m - 1) + d - 20));
    } else {
      DaysBeforeNextYear(y - 1);
      MonthsWithinYear(y - 1, 12);
      AddDaysUnique(issue, -20, Date(y - 1, 12, d + 11));
    }
  }

  /** f'藍新 {year} 年 {month} 月手續費' of the billing day. */
  function InvoicePurpose(billing: Date): string
    requires Valid(billing)
  {
    "藍新 " + NatToString(billing.year) + " 年 " + NatToString(billing.month) + " 月手續費"
  }

  /** The purpose names the billing month and nothing else: equal purposes, equal months. */
  lemma InvoicePurposeNamesMonth(a: Date, b: Date)
    requires Valid(a) && Valid(b)
    ensures InvoicePurpose(a) == InvoicePurpose(b) <==> a.year == b.year && a.month == b.month
  {
    if InvoicePurpose(a) == InvoicePurpose(b) {
      TwoFieldsUnique("藍新 ", NatToString(a.year), NatToString(b.year), " 年 ",
                      NatToString(a.month), NatToString(b.month), " 月手續費", " 月手續費");
      NatToStringInjective(a.year, b.year);
      NatToStringInjective(a.month, b.month);
    }
  }

  /** An invoice issued 2024-03-05 pays the fee of February 2024 (2024-02-14). */
  lemma InvoiceOfMarchFifth()
    ensures BillingDay(Date(2024, 3, 5)) == Ok(Date(2024, 2, 14))
  {
    BillingDayRule(Date(2024, 3, 5));
  }

  function InvoiceUploadName(purpose: string): string
  {
    purpose + " 發票.pdf"
  }

  const InvoiceAmountLocator := "//*[contains(text(),'發票金額')]"

  /** The first digit at or after position k. */
  function FirstDigitFrom(t: string, k: nat): (r: Option<nat>)
    ensures r.Some? ==> k <= r.value < |t| && IsDigit(t[r.value])
    ensures r.Some? ==> forall j :: k <= j < r.value ==> !IsDigit(t[j])
    ensures r.None? ==> forall j :: k <= j < |t| ==> !IsDigit(t[j])
    decreases |t| - k
  {
    if k >= |t| then None
    else if IsDigit(t[k]) then Some(k)
    else FirstDigitFrom(t, k + 1)
  }

  /**
   * int(re.findall(r"\d+", text)[0]) on the text beside 發票金額: the value of the
   * first maximal run of digits. int() of a run of digits is its value
   * (Text.ParseIntOfDigits), so the conversion itself cannot fail.
   */
  function InvoiceAmount(text: Option<string>): (r: Result<int>)
    ensures r.Ok? ==> r.value >= 0
  {
    match text
    case None => Err(MissingElement(InvoiceAmountLocator))
    case Some(t) =>
      match FirstDigitFrom(t, 0)
      case None => Err(NoMatch("\\d+", t))
      case Some(i) => Ok(DigitsValue(t[i..][..LeadingDigits(t[i..])]))
  }

  /** The token re.findall finds first is a non-empty run of digits, and the amount is its value. */
  lemma InvoiceAmountToken(t: string, i: nat)
    requires FirstDigitFrom(t, 0) == Some(i)
    ensures var token := t[i..][..LeadingDigits(t[i..])];
      |token| > 0 && AllDigits(token) && InvoiceAmount(Some(t)) == Ok(DigitsValue(token))
  {
    assert t[i..][0] == t[i];
  }

  /** A run of digits after digit-free text, ended by a non-digit or the end, is the first token. */
  lemma FirstDigitRun(pre: string, s: string, post: string)
    requires forall i :: 0 <= i < |pre| ==> !IsDigit(pre[i])
    requires |s| > 0 && AllDigits(s)
    requires post == [] || !IsDigit(post[0])
    ensures var t := pre + s + post;
      FirstDigitFrom(t, 0) == Some(|pre|) && t[|pre|..][..LeadingDigits(t[|pre|..])] == s
  {
    var t := pre + s + post;
    var p := |pre|;
    assert t[p] == s[0];
    assert FirstDigitFrom(t, 0) == Some(p);
    assert t[p..] == s + post;
    if post == [] {
      assert s + post == s;
      assert LeadingDigits(s) == |s|;
    } else {
      LeadingDigitsOf(s, post);
    }
    assert t[p..][..|s|] == s;
  }

  /** The amount is the number printed first, read up to the first non-digit after it. */
  lemma InvoiceAmountOfText(pre: string, n: nat, post: string)
    requires forall i :: 0 <= i < |pre| ==> !IsDigit(pre[i])
    requires post == [] || !IsDigit(post[0])
    ensures InvoiceAmount(Some(pre + NatToString(n) + post)) == Ok(n)
  {
    FirstDigitRun(pre, NatToString(n), post);
    InvoiceAmountToken(pre + NatToString(n) + post, |pre|);
    DigitsValueOfNatToString(n);
  }

  /** Amounts printed with a thousands separator are cut at the first comma: "1,234" reads as 1. */
  lemma InvoiceAmountStopsAtComma()
    ensures InvoiceAmount(Some("1,234")) == Ok(1)
  {
    assert NatToString(1) == "1";
    assert "1,234" == "" + NatToString(1) + ",234";
    InvoiceAmountOfText("", 1, ",234");
  }

  /** A present amount text fails to give an amount exactly when it holds no digit. */
  lemma InvoiceAmountFailsOnlyWithoutDigits(t: string)
    ensures InvoiceAmount(Some(t)).Err? <==> forall j :: 0 <= j < |t| ==> !IsDigit(t[j])
    ensures InvoiceAmount(Some(t)).Err? ==> InvoiceAmount(Some(t)).error == NoMatch("\\d+", t)
  {
    match FirstDigitFrom(t, 0)
    case None =>
    case Some(i) => InvoiceAmountToken(t, i);
  }

  // ---------------------------------------------------------------------------
  // Newebpay transfer: purpose and amount

  /** f"藍新 {year} 年 {month} 月 {day} 日提領到帳戶" of the mail's date. */
  function TransferPurpose(d: Date): string
    requires Valid(d)
  {
    "藍新 " + NatToString(d.year) + " 年 " + NatToString(d.month) + " 月 " + NatToString(d.day) + " 日提領到帳戶"
  }

  /** Each day has its own purpose, and the purpose gives the day back. */
  lemma TransferPurposeNamesDay(a: Date, b: Date)
    requires Valid(a) && Valid(b)
    ensures TransferPurpose(a) == TransferPurpose(b) <==> a == b
  {
    if TransferPurpose(a) == TransferPurpose(b) {
      TransferPurposeInjective(a, b);
    }
  }

  /** Equal purposes name the same year, month and day. */
  lemma TransferPurposeInjective(a: Date, b: Date)
    requires Valid(a) && Valid(b) && TransferPurpose(a) == TransferPurpose(b)
    ensures a == b
  {
    var y, y' := NatToString(a.year), NatToString(b.year);
    var m, m' := NatToString(a.month), NatToString(b.month);
    var d, d' := NatToString(a.day), NatToString(b.day);
    var tail, tail' := " 日提領到帳戶", " 日提領到帳戶";
    var z, z' := " 月 " + (d + tail), " 月 " + (d' + tail');
    JoinTail("藍新 " + y + " 年 " + m, " 月 ", d, tail);
    JoinTail("藍新 " + y' + " 年 " + m', " 月 ", d', tail');
    TwoFieldsUnique("藍新 ", y, y', " 年 ", m, m', z, z');
    NatToStringInjective(a.year, b.year);
    NatToStringInjective(a.month, b.month);
    AfterLiteral(" 月 ", d + tail, d' + tail');
    DigitPrefixUnique(d, d', tail, tail');
    NatToStringInjective(a.day, b.day);
  }

  const TransferLocator := "//*[contains(text(),\"提領藍新金流帳戶\")]/text()"
  const DollarPattern := "\\$[\\d,]+"

  predicate IsDigitOrComma(c: char)
  {
    IsDigit(c) || c == ','
  }

  /** The length of the run of digits and commas a text starts with. */
  function LeadingDigitsOrCommas(s: string): (n: nat)
    ensures n <= |s| && forall i :: 0 <= i < n ==> IsDigitOrComma(s[i])
    ensures n < |s| ==> !IsDigitOrComma(s[n])
  {
    if s == [] || !IsDigitOrComma(s[0]) then 0 else 1 + LeadingDigitsOrCommas(s[1..])
  }

  lemma {:induction false} LeadingDigitsOrCommasOf(a: string, x: string)
    requires forall i :: 0 <= i < |a| ==> IsDigitOrComma(a[i])
    requires x == [] || !IsDigitOrComma(x[0])
    ensures LeadingDigitsOrCommas(a + x) == |a|
  {
    if a == [] {
      assert a + x == x;
    } else {
      assert (a + x)[0] == a[0];
      assert (a + x)[1..] == a[1..] + x;
      LeadingDigitsOrCommasOf(a[1..], x);
    }
  }

  /** The pattern \$[\d,]+ matches at position i. */
  predicate DollarAt(t: string, i: nat)
  {
    i + 1 < |t| && t[i] == '$' && IsDigitOrComma(t[i + 1])
  }

  function FirstDollarFrom(t: string, k: nat): (r: Option<nat>)
    ensures r.Some? ==> k <= r.value && DollarAt(t, r.value)
    ensures r.Some? ==> forall j :: k <= j < r.value ==> !DollarAt(t, j)
    ensures r.None? ==> forall j: nat :: k <= j ==> !DollarAt(t, j)
    decreases |t| - k
  {
    if k + 1 >= |t| then None
    else if DollarAt(t, k) then Some(k)
    else FirstDollarFrom(t, k + 1)
  }

  /**
   * int(re.findall(r'\$[\d,]+', text)[0].replace('$', '').replace(',', '')): the
   * first '$' with digits or commas after it, every comma dropped.
   */
  function TransferAmount(text: Option<string>): Result<int>
  {
    match text
    case None => Err(MissingElement(TransferLocator))
    case Some(t) =>
      match FirstDollarFrom(t, 0)
      case None => Err(NoMatch(DollarPattern, t))
      case Some(i) =>
        var token := t[i..i + 1 + LeadingDigitsOrCommas(t[i + 1..])];
        var digits := RemoveAll(RemoveAll(token, "$"), ",");
        match ParseInt(digits)
        case None => Err(BadInt(digits))
        case Some(n) => Ok(n)
  }

  /** Deleting the commas of a grouped number and reading it gives the number. */
  lemma ReadGrouped(n: nat)
    ensures ParseInt(RemoveAll(GroupThousands(n), ",")) == Some(n)
  {
    var g := GroupThousands(n);
    RemoveCharIsFilter(g, ',');
    GroupThousandsDigits(n);
    var f := Filter(g, ',');
    assert |f| > 0 by {
      assert g[0] != ',';
      assert f == [g[0]] + Filter(g[1..], ',');
    }
    ParseIntOfDigits(f);
  }

  /** Text without '$' followed by a match of the pattern: the first match is right after the text. */
  lemma FirstDollarAfter(pre: string, rest: string)
    requires forall i :: 0 <= i < |pre| ==> pre[i] != '$'
    requires |rest| >= 2 && rest[0] == '$' && IsDigitOrComma(rest[1])
    ensures FirstDollarFrom(pre + rest, 0) == Some(|pre|)
  {
    var t := pre + rest;
    assert t[|pre|] == '$' && t[|pre| + 1] == rest[1];
    assert DollarAt(t, |pre|);
    forall j: nat | j < |pre|
      ensures !DollarAt(t, j)
    {
      assert t[j] == pre[j];
    }
  }

  /** A transfer mail showing "$1,234,567" after text without '$' records 1234567. */
  lemma TransferAmountOfText(pre: string, n: nat, post: string)
    requires forall i :: 0 <= i < |pre| ==> pre[i] != '$'
    requires post == [] || !IsDigitOrComma(post[0])
    ensures TransferAmount(Some(pre + "$" + GroupThousands(n) + post)) == Ok(n)
  {
    var g := GroupThousands(n);
    var t := pre + "$" + g + post;
    var p := |pre|;
    assert t == pre + ("$" + g + post);
    FirstDollarAfter(pre, "$" + g + post);
    var len := TokenAfterDollar(t, p, g, post);
    assert t[p..p + 1 + len] == "$" + g;
    GroupedTokenDigits(g);
    ReadGrouped(n);
  }

  /** The digits and commas after the '$' at p, up to a character that is neither, are exactly g. */
  lemma TokenAfterDollar(t: string, p: nat, g: string, post: string) returns (len: nat)
    requires p < |t| && t[p + 1..] == g + post
    requires forall i :: 0 <= i < |g| ==> IsDigitOrComma(g[i])
    requires post == [] || !IsDigitOrComma(post[0])
    ensures len == LeadingDigitsOrCommas(t[p + 1..]) == |g|
    ensures t[p..p + 1 + len] == [t[p]] + g
  {
    LeadingDigitsOrCommasOf(g, post);
    len := |g|;
    assert t[p + 1..p + 1 + len] == g;
  }

  /** Deleting '$' and then ',' from "$" followed by grouped digits deletes the commas of the digits. */
  lemma GroupedTokenDigits(g: string)
    requires forall i :: 0 <= i < |g| ==> IsDigit(g[i]) || g[i] == ','
    ensures RemoveAll(RemoveAll("$" + g, "$"), ",") == RemoveAll(g, ",")
  {
    RemoveAllLeading("$", g);
    RemoveAllAbsent(g, "$");
  }

  /** "$," matches the pattern but leaves nothing for int() to read. */
  lemma TransferAmountOfBareComma()
    ensures TransferAmount(Some("$,")) == Err(BadInt(""))
  {
    var t := "$,";
    assert DollarAt(t, 0);
    assert t[1..] == ",";
    assert LeadingDigitsOrCommas(",") == 1;
    assert t[0..2] == "$" + ",";
    RemoveAllLeading("$", ",");
    RemoveAllAbsent(",", "$");
    RemoveAllLeading(",", "");
  }

  // ---------------------------------------------------------------------------
  // NetiCRM donation: kind, purpose, date and price

  const Recurring := "定期捐款"
  const OneOff := "單筆捐款"

  /** '定期捐款' if '_' in donate_id else '單筆捐款' */
  function DonationKind(donateId: string): (kind: string)
    ensures |kind| == 4 && '-' !in kind
    ensures kind == Recurring <==> '_' in donateId
    ensures kind == OneOff <==> '_' !in donateId
  {
    if '_' in donateId then Recurring else OneOff
  }

  /** f'{donator_name}-{repeated_or_not}-{donate_id}' */
  function DonationPurpose(name: string, donateId: string): string
  {
    name + "-" + DonationKind(donateId) + "-" + donateId
  }

  /** The position of the first occurrence of c. */
  function IndexOf(s: string, c: char): (r: Option<nat>)
    ensures r.Some? ==> r.value < |s| && s[r.value] == c && c !in s[..r.value]
    ensures r.None? ==> c !in s
  {
    if s == [] then None
    else if s[0] == c then Some(0)
    else match IndexOf(s[1..], c)
      case None => None
      case Some(i) =>
        assert s[..i + 1] == [s[0]] + s[1..][..i];
        Some(i + 1)
  }

  /** Reading a purpose back: the name up to the first '-', the four-character kind, then the id. */
  function SplitDonationPurpose(p: string): Option<(string, string, string)>
  {
    match IndexOf(p, '-')
    case None => None
    case Some(i) =>
      if i + 6 <= |p| && p[i + 5] == '-' then Some((p[..i], p[i + 1..i + 5], p[i + 6..])) else None
  }

  /** A donor name without '-' can be read back from the purpose, with the kind and the id. */
  lemma DonationPurposeRoundTrip(name: string, donateId: string)
    requires '-' !in name
    ensures SplitDonationPurpose(DonationPurpose(name, donateId)) == Some((name, DonationKind(donateId), donateId))
  {
    var kind := DonationKind(donateId);
    var p := DonationPurpose(name, donateId);
    var i := |name|;
    assert p[..i] == name && p[i] == '-';
    assert IndexOf(p, '-') == Some(i);
    assert p[i + 1..i + 5] == kind && p[i + 5] == '-' && p[i + 6..] == donateId;
  }

  function ReceiptUploadName(purpose: string): string
  {
    purpose + " 收據.pdf"
  }

  const ReceiveDateClass := "crm-contribution-receive_date"
  const PriceClass := "nowrap"

  /** strptime(text[:10], "%Y-%m-%d") of the receive-date cell. */
  function DonationDate(text: Option<string>): (r: Result<Date>)
    ensures r.Ok? ==> Valid(r.value)
  {
    match text
    case None => Err(MissingElement(ReceiveDateClass))
    case Some(t) =>
      var head := t[..if |t| < 10 then |t| else 10];
      match ParseDate(head, '-')
      case None => Err(BadDate(head))
      case Some(d) => Ok(d)
  }

  /** A receive date shown as YYYY-MM-DD followed by anything (the time) reads as that day. */
  lemma DonationDateOfCell(d: Date, rest: string)
    requires Valid(d)
    ensures DonationDate(Some(FormatPadded(d, '-') + rest)) == Ok(d)
  {
    var t := FormatPadded(d, '-') + rest;
    assert t[..10] == FormatPadded(d, '-');
    ParseFormatPadded(d, '-');
  }

  /** int(text.replace('NT$ ', '').replace(',', '')) of the amount cell. */
  function DonationPrice(text: Option<string>): Result<int>
  {
    match text
    case None => Err(MissingElement(PriceClass))
    case Some(t) =>
      var digits := RemoveAll(RemoveAll(t, "NT$ "), ",");
      match ParseInt(digits)
      case None => Err(BadInt(digits))
      case Some(n) => Ok(n)
  }

  /** "NT$ 1,200" reads as 1200, and so does the amount shown without the currency. */
  lemma DonationPriceOfCell(n: nat)
    ensures DonationPrice(Some("NT$ " + GroupThousands(n))) == Ok(n)
    ensures DonationPrice(Some(GroupThousands(n))) == Ok(n)
  {
    var g := GroupThousands(n);
    RemoveAllLeading("NT$ ", g);
    RemoveAllAbsent(g, "NT$ ");
    ReadGrouped(n);
  }

  /** f"https://drive.google.com/open?id={id}" of an uploaded file. */
  function CertificateUrl(fileId: string): string
  {
    "https://drive.google.com/open?id=" + fileId
  }
}
