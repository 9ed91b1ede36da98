# rpa-accounting, modelled in Dafny

The accounting robot of the ZAZA association collects three kinds of bookkeeping
evidence into a shared Google Sheet and a Google Drive folder:

- the Newebpay e-invoice mails ("藍新金流電子發票開立通知"): each invoice is
  downloaded through headless Chrome, uploaded to Drive and booked as the fee of
  the month twenty days before its issue date;
- the Newebpay withdrawal mails ("提領到帳"): each withdrawal is booked as a
  transfer into the bank account, with the amount read from the mail;
- the NetiCRM donation search: the browser logs in, picks the period in the
  jQuery date pickers, downloads each donation receipt, uploads it and books it.

A command line selects the crawlers and the observed period, which defaults to
yesterday (UTC+8) and must not run backwards.

The model keeps the robot's own logic and replaces every outside system by its
inputs and its effects:

- One ghost journal (`Journal.Log`) records what the robot does to the outside
  world, in order: browser steps, Gmail searches, Drive uploads and Sheets
  appends. All services of a run share it, so the order between an upload and
  its row can be stated.
- What the robot reads from outside is a parameter. This covers Gmail's replies,
  the text fragments its XPath lookups find, the download folder's successive
  listings, the file ids Drive assigns, and the clock readings.
- Each crawler is specified by a function that returns its effects: the events
  it journals and how it ends. The imperative crawl methods of
  `Robot.ZazaRobot` are proved to journal exactly those events. Lemmas then
  prove the ledger properties about the functions: an upload before each row,
  one row per item in listing order, and nothing without items.
- Python's date arithmetic (`date + timedelta`, `toordinal`, `OverflowError` at
  the ends of years 1 to 9999), `strftime`/`strptime` for the formats the robot
  uses, `re.findall` for its three patterns, `str.replace`, `int()` and
  `isinstance` on the values `add_row` receives are modelled as Python defines
  them, except that a digit is an ASCII digit (see "## Left out").

Files: `outcomes.dfy` (Option, Result, the exceptions), `calendar.dfy`,
`text.dfy`, `datetext.dfy`, `values.dfy` (the dynamic values and the sheet
row), `journal.dfy`, `gmail_query.dfy`, `google.dfy`, `browser.dfy`,
`fields.dfy` (the crawlers' field derivations), `robot.dfy` (the crawlers) and
`commandline.dfy`.

## Model

| member | source | states |
|---|---|---|
| GmailQuery.BuildGmailSearchQuery | util/google.py:41-59 | The query: free text, `subject:(…)`, then `after:` of the start and `before:` of the day after the end, each with a trailing space, when either bound is given. Otherwise, with relative_days, `after:` is n days before the first `datetime.today()` reading and `before:` is the second reading. OverflowError where the date arithmetic leaves years 1 to 9999. |
| GmailQuery.QueryJoin | util/google.py:44-59 | The query is the free-text clause, then the `subject:(…)` clause, then the date clauses, in that order. |
| GmailQuery.AfterClause | util/google.py:50-51 | `after:` of the start date as `%Y/%m/%d` and a space, or nothing without a start date. |
| GmailQuery.BeforeClause | util/google.py:52-53 | `before:` of the day after the end date as `%Y/%m/%d` and a space, or OverflowError at 9999-12-31. |
| GmailQuery.RelativeClause | util/google.py:55-58 | `after:` of the first clock reading minus n days, then ` before:` of the second reading, or OverflowError when the shift leaves the calendar. |
| GmailQuery.QueryPrefix | util/google.py:44-48 | A successful query begins with the text clause followed by the subject clause. |
| GmailQuery.QueryEmptyIff | util/google.py:44-59 | The query is "" exactly when no argument is truthy (None, "" and 0 are falsy). |
| GmailQuery.DateClausesEmptyIff | util/google.py:49-58 | The date part is empty exactly when neither bound is given and relative_days is falsy. |
| GmailQuery.AfterClauseCarriesStart | util/google.py:50-51 | `after:` carries the start date zero-padded as YYYY/MM/DD, which strptime reads back as the start date, then one space. |
| GmailQuery.BeforeClauseIsNextDay | util/google.py:52-53 | `before:` carries the day whose day number is one more than the end date's, and strptime reads it back. |
| GmailQuery.DateBoundQuery | util/google.py:49-53 | With an end date the query is text, subject, optional after: clause and the before: clause of the next day, each followed by one space. |
| GmailQuery.EndOfTimeOverflows | util/google.py:52-53 | An end date of 9999-12-31 raises OverflowError, whatever the other arguments. |
| GmailQuery.RelativeDaysIgnored | util/google.py:49-58 | Once either bound is given, neither relative_days nor the clock affects the query. |
| GmailQuery.TrailingSpace | util/google.py:44-58 | Every query ends in a space or is empty, except in the relative_days branch, where it ends in the date of the second clock reading. |
| GmailQuery.RelativeOnlyQuery | util/google.py:54-58 | With only relative_days, the query is the text and subject clauses followed by the relative window. |
| GmailQuery.RelativeClauseFrom | util/google.py:55-58 | The relative window is `after:` n days before the first `datetime.today()` reading and `before:` the second reading, with no trailing space. |
| GmailQuery.RelativeWindow | util/google.py:54-58 | With only relative_days = n, the query is the clauses followed by the window from n days before the first clock reading to the second. |
| GmailQuery.EndDateOnlyQuery | util/google.py:52-53 | With only an end date, the query is its before: clause alone. |
| GmailQuery.LeapDayRollover | util/google.py:52-53 | An end date of 2024-02-28 is sent as `before:2024/02/29 `. |
| GmailQuery.YearRollover | util/google.py:52-53 | An end date of 2023-12-31 is sent as `before:2024/01/01 `. |
| GmailQuery.MidnightWindow | util/google.py:55-58 | With relative_days = 1, readings on 2024-03-31 and, past midnight, 2024-04-01 give `after:` 2024-03-30 and `before:` 2024-04-01: a window of two days. |
| Google.GmailService.GetGmailSearchResult | util/google.py:61-70 | One search with the query is journaled; Gmail's answer is returned, None standing for a reply without "messages". |
| Google.DriveService.PdfUpload | util/google.py:90-102 | One upload of the file into the upload folder under the given name is journaled, and the id Drive assigns is returned. |
| Google.ArgumentCheck | util/google.py:119-130 | The outcome of add_row's checks: go on, or the RuntimeError of the first entry of the check list whose value is not an instance of its class. |
| Values.IsInstance | util/google.py:125-126 | `isinstance` on the values add_row checks: an int or a bool is an int, only a datetime is a datetime, only a bool is a bool. |
| Values.TypeName | util/google.py:127-129 | `str()` of the expected class in the RuntimeError message: `<class 'int'>`, `<class 'datetime.datetime'>`, `<class 'bool'>`. |
| Google.FirstMismatch | util/google.py:125-130 | The position of the first check that fails, and no check before it fails; None exactly when all pass. |
| Google.ArgumentCheckIsFirstMismatch | util/google.py:119-130 | add_row's checks pass exactly when amount is an int, date a datetime and the two flags bools; otherwise the RuntimeError names the first wrong argument in list order. |
| Google.CrawlerRowPasses | util/google.py:119-130 | The arguments the crawlers pass (an int, a datetime, two bools) always pass the checks. |
| Google.BoolIsAnAmount | util/google.py:120 | A bool passes the amount check, because bool is a subclass of int. |
| Google.PlainDateRejected | util/google.py:121 | A plain date fails the datetime check, and the error names `date` and `<class 'datetime.datetime'>`. |
| Google.SheetsService.AddRow | util/google.py:113-156 | A failed check raises with the journal unchanged. Otherwise exactly one append of the 11-column row (timestamp, date, purpose, from, to, amount, certificate type, certificate upload, e-mail, verified, filed) goes to the configured sheet and range, with defaults "" and rpa_user@zazaeye.org. |
| Google.Cells | util/google.py:131-143 | The 11 cells of one append, in column order: the `%Y/%-m/%-d %p %I:%M:%S` timestamp, the `%Y/%-m/%-d` date, the purpose, the two accounts, the amount, the certificate type and upload, the e-mail and the two flags. |
| Google.DateCellReadsBack | util/google.py:133 | The unpadded `%Y/%-m/%-d` date cell reads back with strptime as the row's day. |
| Google.StampCellReadsBack | util/google.py:132 | The timestamp cell begins with the day add_row ran on. |
| Google.TimestampDayOfFormat | util/google.py:132 | The text of `%Y/%-m/%-d %p %I:%M:%S` before its first space reads back as the clock's day. |
| Google.BeforeSpace | util/google.py:132 | The longest space-free prefix of a text, followed by a space unless it is the whole text. |
| Google.BeforeSpacePrefix | util/google.py:132 | A space-free text followed by a space and anything gives back that text. |
| DateText.FormatPadded | util/google.py:51 | `%Y<sep>%m<sep>%d` is ten characters with the separator at positions 4 and 7. |
| DateText.FormatUnpadded | util/google.py:133 | `%Y/%-m/%-d`: the four-digit year, then month and day without padding. |
| DateText.FormatTimestamp | util/google.py:132 | `%Y/%-m/%-d %p %I:%M:%S`: the unpadded date, AM or PM, the 12-hour hour and the minutes and seconds, zero padded. |
| DateText.ParseDate | rpa_accounting.py:19 | A date strptime accepts is a real calendar day. |
| DateText.ParseFormatPadded | rpa_accounting.py:19 | strptime reads back what `%Y-%m-%d` (or `%Y/%m/%d`) wrote. |
| DateText.ParseFormatUnpadded | util/google.py:133 | strptime with `%Y/%m/%d` also reads back the unpadded form written to the sheet. |
| DateText.FormatPaddedInjective | util/google.py:51 | Different dates are written differently. |
| DateText.MonthField | rpa_accounting.py:19 | A `%m` field strptime accepts is a month from 1 to 12. |
| DateText.DayField | rpa_accounting.py:19 | A `%d` field strptime accepts is a day from 1 to 31. |
| DateText.MonthFieldOfUnpadded | util/google.py:133 | `%m` reads back the unpadded month `%-m` wrote. |
| DateText.DayFieldOfUnpadded | util/google.py:133 | `%d` reads back the unpadded day `%-d` wrote. |
| DateText.ParseDateOfFields | rpa_accounting.py:19 | A four-digit year, a two-character month and a day field, joined by the separator, parse field by field. |
| DateText.Hour12 | util/google.py:132 | `%I` is an hour from 1 to 12. |
| DateText.Meridiem | util/google.py:132 | `%p`: AM before noon, PM from noon. |
| DateText.Hour24 | util/google.py:132 | The 24-hour hour a `%p`, `%I` pair stands for; ClockRoundTrip proves it inverts them. |
| DateText.ClockRoundTrip | util/google.py:132 | `%p` and `%I` together determine the 24-hour hour. |
| Calendar.ToOrdinal | util/google.py:53 | Every valid date has a day number from 1 to 3652059. |
| Calendar.OrdinalOrder | rpa_accounting.py:202 | `a <= b` on dates is the order of their day numbers, and equal day numbers mean equal dates. |
| Calendar.OrdinalMonotone | rpa_accounting.py:202 | A date earlier in the calendar has a smaller day number. |
| Calendar.NextDay | util/google.py:53 | `d + timedelta(days=1)` exists exactly before 9999-12-31 and is the day numbered one more. |
| Calendar.PrevDay | rpa_accounting.py:71 | One step back, as `date + timedelta` takes it for negative days: it exists exactly after 0001-01-01 and is the day numbered one less. |
| Calendar.AddDays | rpa_accounting.py:71 | `d + timedelta(days=n)` exists exactly when the day number stays in range, and is the day numbered n more. |
| Calendar.LastOrdinal | util/google.py:53 | 9999-12-31 has the largest day number, and every other date a smaller one. |
| Calendar.AddDaysUnique | rpa_accounting.py:71 | The date with the shifted day number is the answer of AddDays. |
| Calendar.AddDaysCompose | util/google.py:55 | Shifting by m days and then by n days is shifting by m + n days. |
| Calendar.AddDaysInverse | util/google.py:55 | Shifting back by n days undoes shifting by n days. |
| Calendar.DaysInMonth | rpa_accounting.py:71 | Every month has 28 to 31 days. Only February has fewer than 30, and it has 29 exactly in leap years. |
| Text.NatToString | rpa_accounting.py:72 | `str(n)` is a non-empty run of digits without a leading zero. |
| Text.DigitsValueOfNatToString | rpa_accounting.py:72 | The digits of `str(n)` denote n. |
| Text.NatToStringInjective | rpa_accounting.py:114 | Different numbers print differently. |
| Text.ZeroPad | util/google.py:51 | A zero-padded field has the given width, only digits, and denotes the number. |
| Text.DigitsValueAppend | rpa_accounting.py:83 | The value of two digit runs joined is the first scaled by the second's length, plus the second. |
| Text.LeadingDigits | rpa_accounting.py:83 | The maximal run of digits at the start of a text. |
| Text.LeadingDigitsOf | rpa_accounting.py:83 | Digits followed by a non-digit: the run is exactly the digits. |
| Text.DigitPrefixUnique | rpa_accounting.py:83 | A digit run ended by a non-digit splits a text in one way only. |
| Text.RemoveAll | rpa_accounting.py:121 | `s.replace(pat, "")` never lengthens the text. What it removes is stated by RemoveAllFirst and RemoveAllNoMatch. |
| Text.RemoveAllFirst | rpa_accounting.py:161 | The leftmost occurrence of the pattern, wherever it stands, is removed, the text before it is kept and the scan resumes after it. |
| Text.RemoveAllNoMatch | rpa_accounting.py:161 | A text in which the pattern does not occur is unchanged. |
| Text.Filter | rpa_accounting.py:121 | Deleting a character leaves none of it. |
| Text.RemoveCharIsFilter | rpa_accounting.py:121 | `replace(c, "")` for one character is deleting every occurrence of it. |
| Text.FilterAppend | rpa_accounting.py:161 | Deleting a character distributes over concatenation. |
| Text.FilterAbsent | rpa_accounting.py:161 | Deleting an absent character changes nothing. |
| Text.RemoveAllAbsent | rpa_accounting.py:161 | `replace` of a pattern whose first character is absent changes nothing. |
| Text.RemoveAllLeading | rpa_accounting.py:161 | A leading occurrence of the pattern is removed and the scan resumes after it. |
| Text.TrimStart | rpa_accounting.py:161 | The leading whitespace `int()` skips is dropped, and nothing else: the dropped characters are all such whitespace, and the rest starts with a character that is not. |
| Text.TrimEnd | rpa_accounting.py:161 | The trailing whitespace `int()` skips is dropped, and nothing else: the dropped characters are all such whitespace, and the rest ends with a character that is not. |
| Text.ParseInt | rpa_accounting.py:161 | `int(text)` in base 10: the whitespace `int()` skips removed at both ends, an optional sign, then digits with single underscores between them; None for the ValueError. |
| Text.ParseIntOfDigits | rpa_accounting.py:83 | `int()` of a non-empty run of digits is its value. |
| Text.ParseIntOfNatToString | rpa_accounting.py:161 | `int(str(n)) == n`. |
| Text.IsSpace | rpa_accounting.py:161 | The whitespace `int()` skips: ASCII tab to carriage return and space, and the non-ASCII characters `str.isspace()` accepts; not U+001C to U+001F. |
| Text.SeparatorRejected | rpa_accounting.py:161 | A literal that starts with one of U+001C to U+001F is a ValueError, because `int()` does not skip those characters. |
| Text.GroupThousands | rpa_accounting.py:117-121 | A number written with thousands commas starts with a digit and holds only digits and commas. |
| Text.GroupThousandsDigits | rpa_accounting.py:117-121 | Deleting the commas of a grouped number leaves its digits, which denote the number. |
| Fields.FirstIsoDateFrom | rpa_accounting.py:67 | The leftmost match of `\d{4}-\d{2}-\d{2}`, and no match before it; None exactly when there is none. |
| Fields.IssueDate | rpa_accounting.py:66-70 | An issue date that reads is a real day. |
| Fields.IssueDateOfText | rpa_accounting.py:66-70 | A text showing the date as YYYY-MM-DD after digit-free text gives that date. |
| Fields.BillingDay | rpa_accounting.py:71 | Twenty days back exists exactly after the 20th day of the calendar (OverflowError otherwise) and is the day numbered 20 less. |
| Fields.BillingDayRule | rpa_accounting.py:71 | After the 20th the billing day is in the same month; otherwise it is in the previous month, or December of the previous year. |
| Fields.InvoicePurpose | rpa_accounting.py:72 | `藍新 {year} 年 {month} 月手續費` of the billing day, with year and month unpadded. |
| Fields.InvoicePurposeNamesMonth | rpa_accounting.py:72 | Two billing days give the same purpose exactly when they share year and month. |
| Fields.InvoiceOfMarchFifth | rpa_accounting.py:71-72 | An invoice issued 2024-03-05 has billing day 2024-02-14. |
| Fields.InvoiceAmount | rpa_accounting.py:83 | The value of the first maximal run of digits in the text, never negative. A missing element or a text without digits is an error. |
| Fields.FirstDigitFrom | rpa_accounting.py:83 | The first digit at or after a position, and no digit before it; None exactly when there is none. |
| Fields.InvoiceAmountToken | rpa_accounting.py:83 | The first token of `\d+` is a non-empty digit run, and the amount is its value. |
| Fields.FirstDigitRun | rpa_accounting.py:83 | Digits after digit-free text, ended by a non-digit, are the first token. |
| Fields.InvoiceAmountOfText | rpa_accounting.py:83 | The amount of a text showing n after digit-free text is n. |
| Fields.InvoiceAmountStopsAtComma | rpa_accounting.py:83 | "1,234" reads as 1. |
| Fields.InvoiceAmountFailsOnlyWithoutDigits | rpa_accounting.py:83 | A present amount text fails exactly when it holds no digit, with the IndexError of the empty findall. |
| Fields.TransferPurpose | rpa_accounting.py:114 | `藍新 {year} 年 {month} 月 {day} 日提領到帳戶` of the mail's date. |
| Fields.TransferPurposeNamesDay | rpa_accounting.py:114 | Two days give the same transfer purpose exactly when they are the same day. |
| Fields.TransferPurposeInjective | rpa_accounting.py:114 | Equal purposes name the same year, month and day. |
| Fields.LeadingDigitsOrCommas | rpa_accounting.py:119 | The maximal run of digits and commas at the start of a text. |
| Fields.LeadingDigitsOrCommasOf | rpa_accounting.py:119 | Digits and commas followed by another character: the run is exactly them. |
| Fields.FirstDollarFrom | rpa_accounting.py:118-120 | The leftmost match of `\$[\d,]+`, and no match before it; None exactly when there is none. |
| Fields.FirstDollarAfter | rpa_accounting.py:118-120 | After text without `$`, the first match starts at the first `$` followed by a digit or comma. |
| Fields.TokenAfterDollar | rpa_accounting.py:119 | The match extends over exactly the digits and commas after the `$`. |
| Fields.GroupedTokenDigits | rpa_accounting.py:121 | Deleting `$` and then `,` from the token deletes the commas of its digits. |
| Fields.TransferAmount | rpa_accounting.py:117-121 | `int()` of the first `\$[\d,]+` token after every `$` and then every `,` is deleted. A missing element, no match, or a token `int()` rejects is an error. |
| Fields.ReadGrouped | rpa_accounting.py:117-121 | Deleting the commas of a grouped number and reading it gives the number. |
| Fields.TransferAmountOfText | rpa_accounting.py:117-121 | A mail showing "$1,234,567" after text without `$` records 1234567. |
| Fields.TransferAmountOfBareComma | rpa_accounting.py:117-121 | "$," matches the pattern but leaves "" for int(), which raises ValueError. |
| Fields.DonationKind | rpa_accounting.py:149 | The kind is 定期捐款 exactly when the id contains `_`, and 單筆捐款 otherwise. |
| Fields.DonationPurpose | rpa_accounting.py:149-150 | `{name}-{kind}-{id}`, where the kind follows from the id. |
| Fields.IndexOf | rpa_accounting.py:150 | The first position of a character, or None when it is absent. |
| Fields.DonationPurposeRoundTrip | rpa_accounting.py:150 | From `name-kind-id`, a name without `-` gives back the name, the kind and the id. |
| Fields.DonationDate | rpa_accounting.py:157-160 | A receive date that reads is a real day. |
| Fields.DonationDateOfCell | rpa_accounting.py:157-160 | A cell starting YYYY-MM-DD, followed by anything, reads as that day. |
| Fields.DonationPrice | rpa_accounting.py:161 | `int()` of the amount cell after every `NT$ ` and then every `,` is deleted. A missing cell or a text `int()` rejects is an error. |
| Fields.DonationPriceOfCell | rpa_accounting.py:161 | "NT$ 1,200" reads as 1200, and so does the amount shown without the currency. |
| Browser.LatestDownload | util/browser.py:125-135 | Over the successive listings: an empty listing raises; the newest entry joined to the folder is returned unless it ends in `.crdownload`, in which case the next listing is examined. |
| Browser.LatestIndex | util/browser.py:128 | The entry with the greatest ctime; on a tie, the first listed, as `max` returns. |
| Browser.PathJoin | util/browser.py:127 | `os.path.join` on POSIX: an absolute name replaces the folder; otherwise one `/` separates them unless the folder already ends in one. |
| Browser.BrowserHelper.GetLatestDownloadFilePath | util/browser.py:122-135 | The polling loop returns exactly LatestDownload of the listings it observes. |
| Browser.LatestDownloadIsComplete | util/browser.py:130-135 | The returned path never ends in `.crdownload`. |
| Browser.LatestDownloadIsNewest | util/browser.py:125-135 | The returned path is the folder joined with the newest entry of some listing; every earlier listing was non-empty and its newest entry partial. |
| Browser.ChosenIsReturned | util/browser.py:125-135 | Conversely, when the listings before k were non-empty with a partial newest entry and the newest entry of listing k is complete, that path is returned. |
| Browser.LatestDownloadOkIff | util/browser.py:125-135 | A path is returned exactly when it is complete and is the newest entry of a listing preceded only by listings whose newest entry was partial. |
| Browser.ChosenAfterPartial | util/browser.py:130-131 | A listing whose newest entry is partial moves the chosen listing one place on. |
| Browser.EmptyFolderFails | util/browser.py:126-128 | A listing that comes back empty, after any number of listings whose newest entry was partial, raises, as `max` of nothing does. |
| Browser.JoinKeepsName | util/browser.py:127 | `os.path.join` ends in the file name, after the folder and one separator. |
| Browser.PartialIffName | util/browser.py:130 | The joined path is partial exactly when the file name is. |
| Browser.PickerValues | util/browser.py:80-87 | The picker's options for a date: `str(year)`, `str(month - 1)` and `str(day)`. |
| Browser.PickerRoundTrip | util/browser.py:80-88 | The year option (decimal year), the month option (month − 1) and the unpadded day label select exactly the requested day. |
| Browser.PickDateSelects | util/browser.py:76-88 | Driving one picker opens its field, then selects year and month options and clicks a day link that select exactly the requested day. |
| Browser.SearchPicksBothDates | util/browser.py:73-110 | The search opens the search page, picks the start date in the low field, then the end date in the high field, then filters and submits. |
| Browser.DayLabelOfLink | util/browser.py:86-87 | The day link's xpath names the day label it was built from. |
| Browser.LoginOutcome | util/browser.py:65-69 | Login succeeds exactly when the URL after submitting differs from the login URL; otherwise it raises. |
| Browser.BrowserHelper.LoginNeticrm | util/browser.py:51-69 | The login steps are journaled and the outcome is LoginOutcome. |
| Browser.BrowserHelper.SearchDonationByDate | util/browser.py:71-120 | The search steps are journaled; the result rows are returned, or [] when the page has no result table. |
| Browser.BrowserHelper.DownloadInvoice | util/browser.py:38-49 | Opening the invoice link and clicking the two print buttons are journaled. |
| Browser.BrowserHelper.Get | rpa_accounting.py:144 | One navigation is journaled. |
| Browser.BrowserHelper.Quit | util/browser.py:34-36 | Quitting the browser is journaled. |
| Browser.Steps | util/browser.py:38-120 | Browser steps are journaled one event per action, in order, and never touch the ledger. |
| Robot.RunStopsAtFailure | rpa_accounting.py:58-88 | Once a prefix of the items has failed, the rest of the loop does nothing. |
| Robot.RunAppend | rpa_accounting.py:58-88 | Running a + b runs a, then b only when all of a passed. |
| Robot.RunPassIff | rpa_accounting.py:58-88 | The loop passes exactly when every item passes. |
| Robot.RunRows | rpa_accounting.py:58-88 | When each passing item appends one row, a passing loop appends one row per item in listing order, and a failing loop fewer rows than items. |
| Robot.RunLedger | rpa_accounting.py:58-88 | When each item uploads then appends, the loop's ledger is upload, row, upload, row, …; two entries per item when it passes. |
| Robot.FramedRun | rpa_accounting.py:57-90 | Between browsing steps, the ledger alternates upload and row; a passing loop holds the items' rows in order. |
| Robot.ItemLedger | rpa_accounting.py:62-88 | One item passes exactly when upload and append succeed. Its ledger is its upload and its row, only the upload when the row fails, and nothing when it fails earlier. |
| Robot.InvoiceDates | rpa_accounting.py:66-71 | The issue date and the billing day, both real days. |
| Robot.InvoiceUpload | rpa_accounting.py:62-76 | An upload is produced only after the dates read. |
| Robot.InvoiceAppend | rpa_accounting.py:78-88 | The row of an invoice: issue day, billing-month purpose, the receivable and office-expense accounts, the amount, the certificate link, and two false flags; or the error of the dates or the amount. |
| Robot.InvoiceEffects | rpa_accounting.py:58-88 | One pass of the invoice loop: a missing link raises; otherwise download, upload, append. |
| Robot.InvoiceItem | rpa_accounting.py:58-88 | One invoice mail passes exactly when its link, download, issue date, billing day and amount all succeed. It then uploads under "藍新 Y 年 M 月手續費 發票.pdf" and appends one row on the issue day with the two accounts, the amount and the link to the upload. A mail that fails appends nothing, and leaves an upload only when the amount failed. |
| Robot.InvoiceSteps | rpa_accounting.py:58-88 | Every mail has that shape, and a passing mail's row is its invoice row. |
| Robot.InvoiceMailsLedger | rpa_accounting.py:57-90 | The invoice loop between the browser's start and its quit has the ledger of FramedRun. |
| Robot.InvoiceCrawl | rpa_accounting.py:43-91 | The query fails, or one search is made; without "messages" nothing else happens; otherwise the browser starts, the mails are processed in order up to the first failure, and the browser quits only if all passed. |
| Robot.InvoiceCrawlLedger | rpa_accounting.py:43-91 | No mails means an empty ledger. Otherwise the crawl alternates upload and row, with one row per mail in mail order when it passes and fewer rows than mails when it fails. |
| Robot.ZazaRobot.CrawlNewebpayInvoice | rpa_accounting.py:43-91 | The crawl journals exactly the events of InvoiceCrawl and ends as it does. |
| Robot.ZazaRobot.ProcessInvoices | rpa_accounting.py:58-88 | The loop journals exactly the run of the invoice steps over the mails. |
| Robot.ZazaRobot.ProcessInvoice | rpa_accounting.py:60-88 | One mail journals exactly the invoice item's events. |
| Robot.ZazaRobot.UploadInvoice | rpa_accounting.py:64-76 | Either the upload happens and returns Drive's id, or nothing is journaled and the error is the upload's. |
| Robot.ZazaRobot.AddInvoiceRow | rpa_accounting.py:78-88 | Either the invoice row is appended, or nothing is journaled and the error is the row's. |
| Robot.TransferAppend | rpa_accounting.py:112-125 | A transfer yields an append or an error. |
| Robot.TransferEffects | rpa_accounting.py:106-125 | One pass of the transfer loop: the row is appended, or the amount's error ends the loop with nothing appended. |
| Robot.TransferItem | rpa_accounting.py:106-125 | One transfer passes exactly when its amount reads. It then appends one row dated at the mail's time, whose purpose names the mail's day, with the two accounts, the amount and no certificate; nothing is uploaded. |
| Robot.RunAppendsOnly | rpa_accounting.py:106-125 | A loop whose items only append rows only appends rows. |
| Robot.TransferSteps | rpa_accounting.py:106-125 | Every transfer mail appends its row when it passes, and nothing else. |
| Robot.TransferCrawl | rpa_accounting.py:93-126 | The query fails, or one search is made; without "messages" nothing else happens; otherwise the mails are processed in order up to the first failure. |
| Robot.TransferCrawlRows | rpa_accounting.py:93-126 | The transfer crawl never uploads. No mails means no rows. A passing crawl appends one row per mail in mail order, and a failing one fewer rows than mails. |
| Robot.ZazaRobot.CrawlTransferResult | rpa_accounting.py:93-126 | The crawl journals exactly the events of TransferCrawl and ends as it does. |
| Robot.ZazaRobot.ProcessTransfers | rpa_accounting.py:106-125 | The loop journals exactly the run of the transfer steps over the mails. |
| Robot.ZazaRobot.ProcessTransfer | rpa_accounting.py:107-125 | One mail journals exactly the transfer item's events. |
| Robot.DonationUpload | rpa_accounting.py:143-155 | An upload is produced only once the name and id are read. |
| Robot.DonationAppend | rpa_accounting.py:157-172 | The row of a donation: receive day, `name-kind-id` purpose, the other-income and receivable accounts, the price, the receipt link, and two false flags; or the error of the title, date or price. |
| Robot.DonationEffects | rpa_accounting.py:141-172 | One pass of the donation loop: a missing receipt link raises; otherwise open the receipt, upload, append. |
| Robot.DonationItem | rpa_accounting.py:141-172 | One donation row passes exactly when its receipt link, download, name, id, date and price all succeed. It then uploads the receipt under "name-kind-id 收據.pdf" and appends one row on the receive date with the two accounts, the price and the link. A row that fails appends nothing, and leaves an upload only when its date or price failed. |
| Robot.DonationSteps | rpa_accounting.py:141-172 | Every donation row has that shape, and a passing row's row is its donation row. |
| Robot.DonationRun | rpa_accounting.py:138-174 | After the browsing steps: no rows returns with the browser open; otherwise the rows run in order, and the browser quits only when all pass. |
| Robot.LoginSteps | rpa_accounting.py:131-136 | Starting the browser and logging in only browse. |
| Robot.NetiBrowsing | rpa_accounting.py:131-137 | Starting, logging in and searching only browse. |
| Robot.DonationRunLedger | rpa_accounting.py:138-174 | No rows ends the crawl with an empty ledger. Otherwise the ledger alternates upload and row, with one row per donation in table order when it passes and fewer when it fails. |
| Robot.NetiCrawl | rpa_accounting.py:128-175 | The browser starts and logs in, and a failed login raises; the search runs; no rows ends the crawl with the browser open; otherwise the rows are processed in order and the browser quits only if all passed. |
| Robot.NetiCrawlLedger | rpa_accounting.py:128-175 | A failed login or an empty or missing table leaves the ledger empty. Otherwise the ledger alternates upload and row, with one row per donation in table order when the crawl passes and fewer when it fails. |
| Robot.ZazaRobot.CrawlNetiResult | rpa_accounting.py:128-175 | The crawl journals exactly the events of NetiCrawl and ends as it does. |
| Robot.ZazaRobot.ProcessDonations | rpa_accounting.py:141-172 | The loop journals exactly the run of the donation steps over the rows. |
| Robot.ZazaRobot.ProcessDonation | rpa_accounting.py:142-172 | One row journals exactly the donation item's events. |
| Robot.ZazaRobot.UploadReceipt | rpa_accounting.py:145-155 | Either the upload happens and returns Drive's id, or nothing is journaled and the error is the upload's. |
| Robot.ZazaRobot.AddDonationRow | rpa_accounting.py:157-172 | Either the donation row is appended, or nothing is journaled and the error is the row's. |
| Robot.CrawlQueryOfPeriod | rpa_accounting.py:46-52 | The crawlers' query ignores the clock and searches the subject from the start date up to the day after the end date. |
| Robot.CrawlQuery | rpa_accounting.py:46-52 | The crawlers' call of build_gamil_search_query: the subject with the period as start and end date. |
| Robot.ZazaRobot.constructor | rpa_accounting.py:25-41 | The robot keeps the period and the configuration, and its three services share its journal. |
| CommandLine.ParseDateArgument | rpa_accounting.py:16-21 | A date option that parses is a real day. |
| CommandLine.DateArgumentRoundTrip | rpa_accounting.py:16-21 | A date written YYYY-mm-dd is parsed as itself. |
| CommandLine.Yesterday | rpa_accounting.py:185-192 | The default is the day before the clock's date, and raises on 0001-01-01. |
| CommandLine.DateOption | rpa_accounting.py:185-192 | A date option's value is a real day. |
| CommandLine.Period | rpa_accounting.py:184-202 | Both defaults from their clocks, then the start and end options parsed, then the assertion start <= end, each failure ending the program. |
| CommandLine.PeriodAccepted | rpa_accounting.py:185-202 | The period is accepted exactly when both defaults exist, every given date parses and start <= end. An absent option is yesterday by its own clock, a given one is the date it writes, and out-of-order dates fail the assertion. |
| CommandLine.DefaultPeriodIsYesterday | rpa_accounting.py:185-192 | Without date options, on one day by both clocks, the period is yesterday alone. |
| CommandLine.GivenPeriod | rpa_accounting.py:185-202 | Dates written YYYY-mm-dd in order are accepted as written, whatever the clocks say. |
| CommandLine.Selected | rpa_accounting.py:211-221 | All three crawlers with -a; otherwise the flagged ones, in the order invoice, transfer, donation. |
| CommandLine.CrawlerEffects | rpa_accounting.py:210-221 | What each crawler does over the period: the invoice or transfer crawl on its subject's query, or the NetiCRM crawl. |
| CommandLine.SelectedCrawlers | rpa_accounting.py:211-221 | A crawler runs exactly when -a or its flag is given; each runs at most once, in the order invoice, transfer, donation. |
| CommandLine.Program | rpa_accounting.py:180-221 | A rejected period ends the program with nothing done; otherwise the selected crawlers run in order up to the first that raises. |
| CommandLine.ProgramOutcome | rpa_accounting.py:180-221 | Nothing happens unless the period is accepted, nor when no crawler is selected. The program succeeds exactly when every selected crawler does, and a crawler that raises stops the ones after it. |
| CommandLine.RunCommandLine | rpa_accounting.py:180-221 | The program journals exactly the events of Program and ends as it does. |
| CommandLine.RunSelected | rpa_accounting.py:210-221 | Running the selected crawlers journals exactly their run, in order. |
| CommandLine.RunFlagged | rpa_accounting.py:215-221 | Each flagged crawl runs in the fixed order, stopping at the first that raises. |
| CommandLine.RunFlaggedPair | rpa_accounting.py:216-219 | The second flagged crawl runs only after the first did not raise. |
| CommandLine.RunIf | rpa_accounting.py:216-217 | `if flag: crawl()` runs the crawl exactly when the flag is given. |
| CommandLine.RunNext | rpa_accounting.py:211-214 | Calling the next selected crawler extends the run by that crawler. |

## Left out

- OAuth token loading, refreshing and pickling in BaseService, and the API clients: this is file, network and foreign-library I/O. The API calls are journal events.
- `get_message_by_id`, `parse_email_content_from_id` (base64 and lxml), and every XPath and Selenium element lookup: these are library calls. The text fragments they find are inputs, and a missing fragment (IndexError, NoSuchElementException) is None.
- `time.sleep`, `WebDriverWait` timeouts, a day link the picker does not show, and all logging: these are timing and Selenium behaviour, not the robot's logic.
- The clocks are parameters:
  - the two separate `datetime.now` readings behind the date option defaults;
  - the two `datetime.today` readings for relative_days, taken as a Clock of two dates;
  - `datetime.now` for the timestamp cell;
  - `datetime.fromtimestamp` of a transfer mail, which depends on the host time zone and is given as the mail's date.
- Browser.BrowserHelper.GetLatestDownloadFilePath: the folder is observed as a finite sequence of listings. Running out of listings is DownloadPending, where the source would poll forever. The race between `os.listdir` and `os.path.getctime` is not modelled, and ctime is an integer.
- Google.GmailService.GetGmailSearchResult: the page_token argument and the 1000-message page limit are not modelled. A reply is the full list of messages.
- Google.SheetsService.AddRow: the model's RuntimeError names the argument that failed its check. The source names the first local whose value equals that argument, which can be another one: with `verification=0` and `amount=0`, it names `amount`. The crawlers' calls always pass the checks (CrawlerRowPasses), so for them the lookup never runs.
- Google.SheetsService.AddRow: the row is journaled as a SheetRow. Its cells are given by Cells, and how Sheets interprets USER_ENTERED text is not modelled.
- `upload_rows` in SheetsServcie and `_get_latest_download_file` in BrowserHelper are never used. They are not modelled.
- The `--config` option and the YAML read: the configuration is given as a Config value.
- Logging setup and `fileConfig` are not modelled.
- CommandLine.PeriodAccepted: when both date options fail to parse, the model reports the start date's error. argparse reports the first one written on the command line.
- The `elif isinstance(values, datetime.date)` branch of DateParseAction is not modelled. argparse passes the option's text to the action. Also, `datetime` there names the class, so `datetime.date` is a method, and the isinstance test would raise TypeError if it were reached.
- Running Python with -O removes the assertion on the period. The model keeps it.
- `\d` in the patterns and the digits `int()` accepts are modelled as ASCII digits. Python's `re` and `int()` also accept other Unicode decimal digits, for example full-width digits.
- `%Y` is rendered as four zero-padded digits.
