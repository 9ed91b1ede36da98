/**
 * BrowserHelper (util/browser.py): the Selenium steps the robot takes, recorded in
 * the journal, and the rule by which it finds the file a download produced.
 */
module Browser {
  import opened Outcomes
  import opened Text
  import opened Calendar
  import opened Journal

  // ---------------------------------------------------------------------------
  // Finding the latest download

  /** One entry of the download folder: its name and its creation time. */
  datatype FileEntry = FileEntry(name: string, ctime: int)

  /**
   * max(files, key=ctime): the entry created last; among entries created at the
   * same time, the first listed, because max only replaces its candidate by a
   * strictly greater one.
   */
  function LatestIndex(files: seq<FileEntry>): (i: nat)
    requires |files| > 0
    ensures i < |files|
    ensures forall j :: 0 <= j < |files| ==> files[j].ctime <= files[i].ctime
    ensures forall j :: 0 <= j < i ==> files[j].ctime < files[i].ctime
  {
    if |files| == 1 then 0
    else
      var k := LatestIndex(files[..|files| - 1]);
      if files[|files| - 1].ctime > files[k].ctime then |files| - 1 else k
  }

  /** os.path.join(folder, name) on POSIX. */
  function PathJoin(folder: string, name: string): string
  {
    if |name| > 0 && name[0] == '/' then name
    else if folder == [] || folder[|folder| - 1] == '/' then folder + name
    else folder + "/" + name
  }

  predicate EndsWith(s: string, suffix: string)
  {
    |suffix| <= |s| && s[|s| - |suffix|..] == suffix
  }

  const PartialSuffix := ".crdownload"

  /** A name os.listdir can return: not empty and without a path separator. */
  predicate IsFileName(name: string)
  {
    |name| > 0 && forall i :: 0 <= i < |name| ==> name[i] != '/'
  }

  /**
   * get_latest_download_file_path over the successive listings of the download
   * folder it observes: the newest entry of the first listing whose newest entry
   * is no longer a partial download. An empty listing raises; running out of
   * listings is the loop still waiting.
   */
  function LatestDownload(folder: string, listings: seq<seq<FileEntry>>): Result<string>
  {
    if listings == [] then Err(DownloadPending)
    else if listings[0] == [] then Err(EmptyDownloadFolder)
    else
      var path := PathJoin(folder, listings[0][LatestIndex(listings[0])].name);
      if EndsWith(path, PartialSuffix) then LatestDownload(folder, listings[1..]) else Ok(path)
  }

  /** The returned path is never a partial download. */
  lemma {:induction false} LatestDownloadIsComplete(folder: string, listings: seq<seq<FileEntry>>)
    ensures LatestDownload(folder, listings).Ok? ==> !EndsWith(LatestDownload(folder, listings).value, PartialSuffix)
  {
    if listings != [] && listings[0] != [] {
      LatestDownloadIsComplete(folder, listings[1..]);
    }
  }

  /** The newest entry of a listing, joined to the folder. */
  function NewestPath(folder: string, files: seq<FileEntry>): string
    requires |files| > 0
  {
    PathJoin(folder, files[LatestIndex(files)].name)
  }

  /**
   * Listing k is the one the poll stopped at with `path`: it and every listing before
   * it held entries, the newest of each earlier one was partial, and `path` is its newest.
   */
  predicate IsChosenListing(folder: string, listings: seq<seq<FileEntry>>, k: int, path: string)
  {
    && 0 <= k < |listings|
    && (forall j :: 0 <= j <= k ==> |listings[j]| > 0)
    && (forall j :: 0 <= j < k ==> |listings[j]| > 0 && EndsWith(NewestPath(folder, listings[j]), PartialSuffix))
    && |listings[k]| > 0 && path == NewestPath(folder, listings[k])
  }

  /**
   * The returned path is the folder joined with the newest entry of some listing,
   * every earlier listing held entries, and the newest of each earlier one was partial.
   */
  lemma {:induction false} LatestDownloadIsNewest(folder: string, listings: seq<seq<FileEntry>>)
    requires LatestDownload(folder, listings).Ok?
    ensures exists k :: IsChosenListing(folder, listings, k, LatestDownload(folder, listings).value)
  {
    var path := PathJoin(folder, listings[0][LatestIndex(listings[0])].name);
    if EndsWith(path, PartialSuffix) {
      var rest := listings[1..];
      assert LatestDownload(folder, listings) == LatestDownload(folder, rest);
      LatestDownloadIsNewest(folder, rest);
      var k :| IsChosenListing(folder, rest, k, LatestDownload(folder, rest).value);
      ChosenAfterPartial(folder, listings, k, LatestDownload(folder, rest).value);
    } else {
      assert IsChosenListing(folder, listings, 0, path);
    }
  }

  /** A listing whose newest entry is partial moves the chosen listing one place on. */
  lemma ChosenAfterPartial(folder: string, listings: seq<seq<FileEntry>>, k: int, path: string)
    requires |listings| > 0 && |listings[0]| > 0 && EndsWith(NewestPath(folder, listings[0]), PartialSuffix)
    requires IsChosenListing(folder, listings[1..], k, path)
    ensures IsChosenListing(folder, listings, k + 1, path)
  {
    var rest := listings[1..];
    forall j | 1 <= j <= k + 1
      ensures listings[j] == rest[j - 1]
    {
    }
  }

  /**
   * The converse: the newest entry of the first listing whose newest entry is
   * complete is what the poll returns.
   */
  lemma {:induction false} ChosenIsReturned(folder: string, listings: seq<seq<FileEntry>>, k: int, path: string)
    requires IsChosenListing(folder, listings, k, path) && !EndsWith(path, PartialSuffix)
    ensures LatestDownload(folder, listings) == Ok(path)
    decreases k
  {
    if k > 0 {
      var rest := listings[1..];
      assert IsChosenListing(folder, rest, k - 1, path) by {
        forall j | 0 <= j <= k - 1
          ensures rest[j] == listings[j + 1]
        {
        }
      }
      ChosenIsReturned(folder, rest, k - 1, path);
    }
  }

  /** The poll returns a path exactly when that path is complete and ends some chosen listing. */
  lemma LatestDownloadOkIff(folder: string, listings: seq<seq<FileEntry>>, path: string)
    ensures LatestDownload(folder, listings) == Ok(path) <==>
      !EndsWith(path, PartialSuffix) && exists k :: IsChosenListing(folder, listings, k, path)
  {
    if LatestDownload(folder, listings) == Ok(path) {
      LatestDownloadIsComplete(folder, listings);
      LatestDownloadIsNewest(folder, listings);
    }
    if !EndsWith(path, PartialSuffix) && exists k :: IsChosenListing(folder, listings, k, path) {
      var k :| IsChosenListing(folder, listings, k, path);
      ChosenIsReturned(folder, listings, k, path);
    }
  }

  /**
   * A listing that comes back empty after j listings whose newest entry was
   * partial is an error, whatever follows.
   */
  lemma {:induction false} EmptyFolderFails(folder: string, listings: seq<seq<FileEntry>>, j: nat)
    requires j < |listings| && listings[j] == []
    requires forall i :: 0 <= i < j ==> |listings[i]| > 0 && EndsWith(NewestPath(folder, listings[i]), PartialSuffix)
    ensures LatestDownload(folder, listings) == Err(EmptyDownloadFolder)
    decreases j
  {
    if j > 0 {
      var rest := listings[1..];
      forall i | 0 <= i < j - 1
        ensures |rest[i]| > 0 && EndsWith(NewestPath(folder, rest[i]), PartialSuffix)
      {
        assert rest[i] == listings[i + 1];
      }
      EmptyFolderFails(folder, rest, j - 1);
    }
  }

  /** Joining keeps the file name at the end, after the folder and one separator. */
  lemma JoinKeepsName(folder: string, name: string)
    requires IsFileName(name)
    ensures var p := PathJoin(folder, name);
      EndsWith(p, name) && p[..|p| - |name|] == (if folder == [] || folder[|folder| - 1] == '/' then folder else folder + "/")
  {
  }

  /** Whether the joined path is a partial download depends only on the file name. */
  lemma PartialIffName(folder: string, name: string)
    requires IsFileName(name)
    ensures EndsWith(PathJoin(folder, name), PartialSuffix) <==> EndsWith(name, PartialSuffix)
  {
    var p := PathJoin(folder, name);
    var n := |PartialSuffix|;
    JoinKeepsName(folder, name);
    if |name| >= n {
      assert p[|p| - n..] == name[|name| - n..];
    } else if |p| >= n {
      // the separator before the name falls inside the last n characters
      var sep := |p| - |name| - 1;
      assert p[..|p| - |name|][sep] == '/';
      assert p[|p| - n..][sep - (|p| - n)] == '/';
      assert forall i :: 0 <= i < n ==> PartialSuffix[i] != '/';
    }
  }

  // ---------------------------------------------------------------------------
  // The date picker of the donation search

  /**
   * The option values the jQuery date picker is driven with: the decimal year, the
   * zero-based month (5 means June), and the day link's unpadded label.
   */
  function PickerValues(d: Date): (string, string, string)
    requires Valid(d)
  {
    (NatToString(d.year), NatToString(d.month - 1), NatToString(d.day))
  }

  /** The date a choice of picker values stands for. */
  function PickedDate(year: string, month: string, day: string): Option<Date>
  {
    if AllDigits(year) && AllDigits(month) && AllDigits(day) then
      Some(Date(DigitsValue(year), DigitsValue(month) + 1, DigitsValue(day)))
    else None
  }

  /** The picker is driven to exactly the requested day. */
  lemma PickerRoundTrip(d: Date)
    requires Valid(d)
    ensures var (y, m, dd) := PickerValues(d); PickedDate(y, m, dd) == Some(d)
  {
    DigitsValueOfNatToString(d.year);
    DigitsValueOfNatToString(d.month - 1);
    DigitsValueOfNatToString(d.day);
  }

  /** The xpath of the day link labelled with the given day. */
  function DayLink(dayText: string): string
  {
    "//td[@data-handler='selectDay']/a[text()='" + dayText + "']"
  }

  /** Opening the picker of one date field and choosing year, month and day. */
  function PickDate(field: string, d: Date): seq<Action>
    requires Valid(d)
  {
    var (y, m, dd) := PickerValues(d);
    [Click(field), SelectValue("ui-datepicker-year", y), SelectValue("ui-datepicker-month", m), Click(DayLink(dd))]
  }

  const DonationSearchUrl := "https://zazaeye.neticrm.tw/civicrm/contribute/search?reset=1"

  /** The steps of search_donation_by_date, in order. */
  function DonationSearchActions(startDate: Date, endDate: Date): seq<Action>
    requires Valid(startDate) && Valid(endDate)
  {
    [Navigate(DonationSearchUrl)] + PickDate("contribution_date_low", startDate) +
    PickDate("contribution_date_high", endDate) + [Click("contribution_status_id[1]"), Click("_qf_Search_refresh")]
  }

  /** Driving one picker opens the field and selects exactly the requested day. */
  lemma PickDateSelects(field: string, d: Date)
    requires Valid(d)
    ensures var a := PickDate(field, d);
      |a| == 4 && a[0] == Click(field) && a[1].SelectValue? && a[2].SelectValue? &&
      PickedDate(a[1].value, a[2].value, DayLabel(a[3])) == Some(d)
  {
    var (y, m, dd) := PickerValues(d);
    assert DayLabel(Click(DayLink(dd))) == dd by { DayLabelOfLink(dd); }
    PickerRoundTrip(d);
  }

  /** The search opens the search page, then picks the start date, then the end date. */
  lemma SearchPicksBothDates(startDate: Date, endDate: Date)
    requires Valid(startDate) && Valid(endDate)
    ensures var a := DonationSearchActions(startDate, endDate);
      |a| == 11 && a[0] == Navigate(DonationSearchUrl) &&
      a[1..5] == PickDate("contribution_date_low", startDate) &&
      a[5..9] == PickDate("contribution_date_high", endDate) &&
      PickedDate(a[2].value, a[3].value, DayLabel(a[4])) == Some(startDate) &&
      PickedDate(a[6].value, a[7].value, DayLabel(a[8])) == Some(endDate)
  {
    var lo, hi := PickDate("contribution_date_low", startDate), PickDate("contribution_date_high", endDate);
    PickDateSelects("contribution_date_low", startDate);
    PickDateSelects("contribution_date_high", endDate);
    var a := DonationSearchActions(startDate, endDate);
    assert a == [Navigate(DonationSearchUrl)] + lo + hi + [Click("contribution_status_id[1]"), Click("_qf_Search_refresh")];
    assert a[1..5] == lo && a[5..9] == hi;
    assert a[2] == lo[1] && a[3] == lo[2] && a[4] == lo[3];
    assert a[6] == hi[1] && a[7] == hi[2] && a[8] == hi[3];
  }

  /** The label a day-link click names. */
  function DayLabel(a: Action): string
  {
    var prefix := "//td[@data-handler='selectDay']/a[text()='";
    if a.Click? && |a.locator| >= |prefix| + 2 then a.locator[|prefix|..|a.locator| - 2] else ""
  }

  lemma DayLabelOfLink(dayText: string)
    ensures DayLabel(Click(DayLink(dayText))) == dayText
  {
    var prefix := "//td[@data-handler='selectDay']/a[text()='";
    var l := DayLink(dayText);
    assert l == prefix + dayText + "']";
    assert l[|prefix|..|l| - 2] == dayText;
  }

  // ---------------------------------------------------------------------------
  // Login

  /** login_neticrm succeeds exactly when submitting moved the browser away from the login page. */
  function LoginOutcome(loginUrl: string, urlAfterSubmit: string): (r: Outcome)
    ensures r.Pass? <==> urlAfterSubmit != loginUrl
    ensures r.Fail? ==> r.error == LoginFailed
  {
    if urlAfterSubmit != loginUrl then Pass else Fail(LoginFailed)
  }

  function LoginActions(loginUrl: string, accountName: string, password: string): seq<Action>
  {
    [Navigate(loginUrl), SendKeys("edit-name--2", accountName), SendKeys("edit-pass--2", password),
     Click("edit-submit--2")]
  }

  function InvoiceDownloadActions(invoiceLink: string): seq<Action>
  {
    [Navigate(invoiceLink), Click("print_btn"), Click("hand_open_inv")]
  }

  /** The journal entries of browser steps. */
  function Steps(actions: seq<Action>): (events: seq<Event>)
    ensures |events| == |actions|
    ensures forall i :: 0 <= i < |actions| ==> events[i] == Browse(actions[i])
    ensures Ledger(events) == []
  {
    if actions == [] then [] else Steps(actions[..|actions| - 1]) + [Browse(actions[|actions| - 1])]
  }

  // ---------------------------------------------------------------------------
  // The helper object

  class BrowserHelper {
    const downloadFolder: string
    const log: Log

    /** Starts headless Chrome, downloading into downloadFolder. */
    constructor(chromeDriverPath: string, downloadFolder: string, log: Log)
      modifies log
      ensures this.downloadFolder == downloadFolder && this.log == log
      ensures log.events == old(log.events) + [Browse(Launch(chromeDriverPath, downloadFolder))]
    {
      this.downloadFolder := downloadFolder;
      this.log := log;
      new;
      log.events := log.events + [Browse(Launch(chromeDriverPath, downloadFolder))];
    }

    method Quit()
      modifies log
      ensures log.events == old(log.events) + [Browse(QuitBrowser)]
    {
      log.events := log.events + [Browse(QuitBrowser)];
    }

    /** browser.get(url) */
    method Get(url: string)
      modifies log
      ensures log.events == old(log.events) + [Browse(Navigate(url))]
    {
      log.events := log.events + [Browse(Navigate(url))];
    }

    method DownloadInvoice(invoiceLink: string)
      modifies log
      ensures log.events == old(log.events) + Steps(InvoiceDownloadActions(invoiceLink))
    {
      log.events := log.events + Steps(InvoiceDownloadActions(invoiceLink));
    }

    /** `urlAfterSubmit` is the browser's current_url once the form is submitted. */
    method LoginNeticrm(loginUrl: string, accountName: string, password: string, urlAfterSubmit: string)
      returns (r: Outcome)
      modifies log
      ensures r == LoginOutcome(loginUrl, urlAfterSubmit)
      ensures log.events == old(log.events) + Steps(LoginActions(loginUrl, accountName, password))
    {
      log.events := log.events + Steps(LoginActions(loginUrl, accountName, password));
      if urlAfterSubmit != loginUrl {
        r := Pass;
      } else {
        r := Fail(LoginFailed);
      }
    }

    /**
     * The donation search; `table` is the rows of the result table, None when the
     * page has no result table, which reads as no donations.
     */
    method SearchDonationByDate<R>(startDate: Date, endDate: Date, table: Option<seq<R>>) returns (rows: seq<R>)
      requires Valid(startDate) && Valid(endDate)
      modifies log
      ensures rows == (if table.Some? then table.value else [])
      ensures log.events == old(log.events) + Steps(DonationSearchActions(startDate, endDate))
    {
      log.events := log.events + Steps(DonationSearchActions(startDate, endDate));
      match table {
        case Some(t) => rows := t;
        case None => rows := [];
      }
    }

    /**
     * Polls the listings of the download folder until the newest entry is no longer
     * a partial download.
     */
    method GetLatestDownloadFilePath(listings: seq<seq<FileEntry>>) returns (r: Result<string>)
      ensures r == LatestDownload(downloadFolder, listings)
    {
      var k := 0;
      while k < |listings|
        invariant 0 <= k <= |listings|
        invariant LatestDownload(downloadFolder, listings) == LatestDownload(downloadFolder, listings[k..])
      {
        var files := listings[k];
        if files == [] {
          return Err(EmptyDownloadFolder);
        }
        var finalFilePath := PathJoin(downloadFolder, files[LatestIndex(files)].name);
        if !EndsWith(finalFilePath, PartialSuffix) {
          return Ok(finalFilePath);
        }
        assert listings[k..][1..] == listings[k + 1..];
        k := k + 1;
      }
      return Err(DownloadPending);
    }
  }
}
