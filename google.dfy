/**
 * The Google services the robot writes through (util/google.py): Gmail search,
 * Drive upload and the Sheets row append. The API calls themselves are events
 * in the shared journal; what is modelled is what the robot sends.
 */
module Google {
  import opened Outcomes
  import opened Text
  import opened Calendar
  import opened DateText
  import opened Values
  import opened Journal

  class GmailService {
    const log: Log

    constructor(log: Log)
      ensures this.log == log
    {
      this.log := log;
    }

    /**
     * users().messages().list(q=q): the search is recorded; `reply` is what Gmail
     * answers, None when the answer has no "messages" key.
     */
    method GetGmailSearchResult<M>(q: string, reply: Option<seq<M>>) returns (messages: Option<seq<M>>)
      modifies log
      ensures messages == reply
      ensures log.events == old(log.events) + [Search(q)]
    {
      log.events := log.events + [Search(q)];
      messages := reply;
    }
  }

  class DriveService {
    const uploadFolder: string
    const log: Log

    constructor(uploadFolder: string, log: Log)
      ensures this.uploadFolder == uploadFolder && this.log == log
    {
      this.uploadFolder := uploadFolder;
      this.log := log;
    }

    /** files().create of a PDF into the upload folder; `fileId` is the id Drive assigns. */
    method PdfUpload(uploadName: string, filePath: string, fileId: string) returns (id: string)
      modifies log
      ensures id == fileId
      ensures log.events == old(log.events) + [Upload(uploadFolder, uploadName, filePath, fileId)]
    {
      log.events := log.events + [Upload(uploadFolder, uploadName, filePath, fileId)];
      id := fileId;
    }
  }

  // ---------------------------------------------------------------------------
  // add_row

  const DefaultEmail := "rpa_user@zazaeye.org"

  /** One entry of add_row's check list: the argument, its value and the class it must have. */
  datatype Check = Check(argument: string, value: Value, expected: PyType)

  /** The check list, in the order add_row walks it. */
  function CheckList(amount: Value, date: Value, verification: Value, certificateCollected: Value): seq<Check>
  {
    [Check("amount", amount, IntType), Check("date", date, DateTimeType),
     Check("verification", verification, BoolType), Check("certificate_collected", certificateCollected, BoolType)]
  }

  predicate Passes(c: Check)
  {
    IsInstance(c.value, c.expected)
  }

  /** The position of the first check that fails, if any. */
  function FirstMismatch(checks: seq<Check>): (r: Option<nat>)
    ensures r.None? <==> forall i :: 0 <= i < |checks| ==> Passes(checks[i])
    ensures r.Some? ==> r.value < |checks| && !Passes(checks[r.value])
    ensures r.Some? ==> forall i :: 0 <= i < r.value ==> Passes(checks[i])
  {
    if checks == [] then None
    else if !Passes(checks[0]) then Some(0)
    else match FirstMismatch(checks[1..])
      case None => None
      case Some(j) => Some(j + 1)
  }

  /** The RuntimeError a failing check raises. */
  function Mismatch(c: Check): Failure
  {
    TypeMismatch(c.argument, TypeName(c.expected))
  }

  /**
   * What add_row's checks decide: go on, or the RuntimeError of the first check,
   * in list order, that fails.
   */
  function ArgumentCheck(amount: Value, date: Value, verification: Value, certificateCollected: Value): Outcome
  {
    var checks := CheckList(amount, date, verification, certificateCollected);
    if !Passes(checks[0]) then Fail(Mismatch(checks[0]))
    else if !Passes(checks[1]) then Fail(Mismatch(checks[1]))
    else if !Passes(checks[2]) then Fail(Mismatch(checks[2]))
    else if !Passes(checks[3]) then Fail(Mismatch(checks[3]))
    else Pass
  }

  /**
   * The checks pass exactly when every argument has its class; otherwise the error
   * names the first argument, in the order amount, date, verification,
   * certificate_collected, whose class is wrong.
   */
  lemma ArgumentCheckIsFirstMismatch(amount: Value, date: Value, verification: Value, certificateCollected: Value)
    ensures var checks := CheckList(amount, date, verification, certificateCollected);
      ArgumentCheck(amount, date, verification, certificateCollected) ==
        match FirstMismatch(checks)
        case None => Pass
        case Some(i) => Fail(Mismatch(checks[i]))
    ensures ArgumentCheck(amount, date, verification, certificateCollected).Pass? <==>
      IsInstance(amount, IntType) && IsInstance(date, DateTimeType) &&
      IsInstance(verification, BoolType) && IsInstance(certificateCollected, BoolType)
  {
    var checks := CheckList(amount, date, verification, certificateCollected);
    match FirstMismatch(checks)
    case None =>
      assert Passes(checks[0]) && Passes(checks[1]) && Passes(checks[2]) && Passes(checks[3]);
    case Some(i) =>
      assert i == 0 || i == 1 || i == 2 || i == 3;
  }

  /** The rows the crawlers build, with an int amount, a datetime and two bools, pass every check. */
  lemma CrawlerRowPasses(amount: int, date: DateTime, verification: bool, certificateCollected: bool)
    ensures ArgumentCheck(IntV(amount), DateTimeV(date), BoolV(verification), BoolV(certificateCollected)) == Pass
  {
  }

  /** A bool passes the int check: add_row accepts True as an amount. */
  lemma BoolIsAnAmount(b: bool, date: DateTime)
    ensures ArgumentCheck(BoolV(b), DateTimeV(date), BoolV(false), BoolV(false)) == Pass
  {
  }

  /** A plain date fails the datetime check, and the error names the date argument. */
  lemma PlainDateRejected(amount: int, d: Date)
    ensures ArgumentCheck(IntV(amount), DateV(d), BoolV(false), BoolV(false)) ==
      Fail(TypeMismatch("date", "<class 'datetime.datetime'>"))
  {
  }

  /**
   * The eleven cells add_row sends for a row: timestamp, date, purpose, from
   * account, to account, amount, certificate type, certificate upload, e-mail,
   * verified, certificate filed.
   */
  function Cells(r: SheetRow): (cells: Row)
    requires ValidDateTime(r.now) && ValidDateTime(r.date)
    ensures |cells| == 11
  {
    [StrV(FormatTimestamp(r.now)), StrV(FormatUnpadded(r.date.date)), StrV(r.purpose), StrV(r.fromAccount),
     StrV(r.toAccount), r.amount, StrV(r.certificateType), StrV(r.certificateUpload), StrV(r.email),
     r.verification, r.certificateCollected]
  }

  /** The date cell reads back, with strptime, as the day of the row's date. */
  lemma DateCellReadsBack(r: SheetRow)
    requires ValidDateTime(r.now) && ValidDateTime(r.date)
    ensures Cells(r)[1].StrV? && ParseDate(Cells(r)[1].s, '/') == Some(r.date.date)
  {
    assert Cells(r)[1] == StrV(FormatUnpadded(r.date.date));
    ParseFormatUnpadded(r.date.date);
  }

  /** The timestamp cell begins with the day add_row ran on. */
  lemma StampCellReadsBack(r: SheetRow)
    requires ValidDateTime(r.now) && ValidDateTime(r.date)
    ensures Cells(r)[0].StrV? && TimestampDay(Cells(r)[0].s) == Some(r.now.date)
  {
    assert Cells(r)[0] == StrV(FormatTimestamp(r.now));
    TimestampDayOfFormat(r.now);
  }

  /** The day a timestamp cell names: the text before its first space, read with strptime. */
  function TimestampDay(ts: string): Option<Date>
  {
    ParseDate(BeforeSpace(ts), '/')
  }

  /** The text up to the first space. */
  function BeforeSpace(s: string): (r: string)
    ensures |r| <= |s| && r == s[..|r|]
    ensures forall i :: 0 <= i < |r| ==> r[i] != ' '
    ensures |r| < |s| ==> s[|r|] == ' '
  {
    if s == [] || s[0] == ' ' then [] else [s[0]] + BeforeSpace(s[1..])
  }

  lemma {:induction false} BeforeSpacePrefix(a: string, b: string)
    requires forall i :: 0 <= i < |a| ==> a[i] != ' '
    ensures BeforeSpace(a + " " + b) == a
  {
    if a != [] {
      assert (a + " " + b)[1..] == a[1..] + " " + b;
      BeforeSpacePrefix(a[1..], b);
    }
  }

  /** The timestamp cell begins with the day it was written on. */
  lemma TimestampDayOfFormat(now: DateTime)
    requires ValidDateTime(now)
    ensures TimestampDay(FormatTimestamp(now)) == Some(now.date)
  {
    var day := FormatUnpadded(now.date);
    var rest := Meridiem(now.hour) + " " + ZeroPad(Hour12(now.hour), 2) + ":" + ZeroPad(now.minute, 2) + ":" +
                ZeroPad(now.second, 2);
    assert FormatTimestamp(now) == day + " " + rest;
    assert forall i :: 0 <= i < |day| ==> day[i] != ' ' by {
      assert AllDigits(ZeroPad(now.date.year, 4)) && AllDigits(NatToString(now.date.month)) &&
             AllDigits(NatToString(now.date.day));
    }
    BeforeSpacePrefix(day, rest);
    ParseFormatUnpadded(now.date);
  }

  class SheetsService {
    const sheetId: string
    const sheetRange: string
    const log: Log

    constructor(sheetId: string, sheetRange: string, log: Log)
      ensures this.sheetId == sheetId && this.sheetRange == sheetRange && this.log == log
    {
      this.sheetId := sheetId;
      this.sheetRange := sheetRange;
      this.log := log;
    }

    /**
     * add_row: the four type checks, in order, then one append of the row, whose
     * cells are Cells(row). A failed check raises before anything is sent.
     */
    method AddRow(now: DateTime, date: Value, purpose: string, amount: Value, fromAccount: string, toAccount: string,
                  certificateType: string, verification: Value, certificateCollected: Value,
                  certificateUpload: string := "", email: string := DefaultEmail) returns (r: Outcome)
      requires ValidDateTime(now) && WellFormed(date)
      modifies log
      ensures r == ArgumentCheck(amount, date, verification, certificateCollected)
      ensures r.Fail? ==> log.events == old(log.events)
      ensures r.Pass? ==>
        log.events == old(log.events) + [Append(sheetId, sheetRange,
          SheetRow(now, date.t, purpose, fromAccount, toAccount, amount, certificateType, certificateUpload, email,
                   verification, certificateCollected))]
    {
      var checks := CheckList(amount, date, verification, certificateCollected);
      for i := 0 to |checks|
        invariant forall j :: 0 <= j < i ==> Passes(checks[j])
      {
        if !Passes(checks[i]) {
          return Fail(TypeMismatch(checks[i].argument, TypeName(checks[i].expected)));
        }
      }
      assert Passes(checks[1]);
      var row := SheetRow(now, date.t, purpose, fromAccount, toAccount, amount, certificateType, certificateUpload,
                          email, verification, certificateCollected);
      log.events := log.events + [Append(sheetId, sheetRange, row)];
      return Pass;
    }
  }
}
