/**
 * ZAZARobot (rpa_accounting.py): the three crawlers and the run the command line
 * selects. What a crawler reads from outside (the Gmail reply, the parsed mail
 * fragments, the download folder's listings, the file ids Drive assigns, the
 * clock) is an input; what it does is recorded in the shared journal.
 */
module Robot {
  import opened Outcomes
  import opened Calendar
  import opened DateText
  import opened Values
  import opened Journal
  import opened GmailQuery
  import opened Google
  import opened Browser
  import opened Fields

  /** The settings the robot reads from its configuration file. */
  datatype Config = Config(chromeDriverPath: string, downloadFolder: string, certificateFolder: string,
                           sheetId: string, sheetRange: string, netiLoginUrl: string, netiAccountName: string,
                           netiPassword: string)

  // ---------------------------------------------------------------------------
  // Running the items of a crawl in order

  /**
   * The items of a listing processed in order; the first item that fails raises,
   * so nothing after it runs.
   */
  function Run<T>(items: seq<T>, step: T --> Effects): Effects
    requires forall i :: 0 <= i < |items| ==> step.requires(items[i])
    decreases |items|
  {
    if items == [] then Effects([], Pass)
    else
      var prev := Run(items[..|items| - 1], step);
      if prev.outcome.Fail? then prev
      else
        var last := step(items[|items| - 1]);
        Effects(prev.events + last.events, last.outcome)
  }

  /** A run that has failed on a prefix is the whole run: nothing after the failure happens. */
  lemma {:induction false} RunStopsAtFailure<T>(items: seq<T>, step: T --> Effects, k: nat)
    requires forall i :: 0 <= i < |items| ==> step.requires(items[i])
    requires k <= |items| && Run(items[..k], step).outcome.Fail?
    ensures Run(items, step) == Run(items[..k], step)
    decreases |items|
  {
    if k < |items| {
      var init := items[..|items| - 1];
      assert init[..k] == items[..k];
      RunStopsAtFailure(init, step, k);
    } else {
      assert items[..k] == items;
    }
  }

  /** Running a + b runs a, then, if all of a passed, b after it. */
  lemma {:induction false} RunAppend<T>(a: seq<T>, b: seq<T>, step: T --> Effects)
    requires forall i :: 0 <= i < |a| ==> step.requires(a[i])
    requires forall i :: 0 <= i < |b| ==> step.requires(b[i])
    ensures forall i :: 0 <= i < |a + b| ==> step.requires((a + b)[i])
    ensures Run(a + b, step) ==
      if Run(a, step).outcome.Fail? then Run(a, step)
      else Effects(Run(a, step).events + Run(b, step).events, Run(b, step).outcome)
    decreases |b|
  {
    assert forall i :: 0 <= i < |a + b| ==> step.requires((a + b)[i]) by {
      forall i | 0 <= i < |a + b| ensures step.requires((a + b)[i]) {
        if i >= |a| {
          assert (a + b)[i] == b[i - |a|];
        }
      }
    }
    if b == [] {
      assert a + b == a;
    } else {
      var b' := b[..|b| - 1];
      assert forall i :: 0 <= i < |b'| ==> b'[i] == b[i];
      RunAppend(a, b', step);
      assert (a + b)[..|a + b| - 1] == a + b';
      assert (a + b)[|a + b| - 1] == b[|b| - 1];
    }
  }

  /** A journal holding the run of a, then the run of b after a passed, holds the run of a + b. */
  lemma RunThen<T>(h: seq<Event>, a: seq<T>, b: seq<T>, step: T --> Effects, mid: seq<Event>, fin: seq<Event>, r: Outcome)
    requires forall i :: 0 <= i < |a| ==> step.requires(a[i])
    requires forall i :: 0 <= i < |b| ==> step.requires(b[i])
    requires Run(a, step).outcome.Pass? && mid == h + Run(a, step).events
    requires fin == mid + Run(b, step).events && r == Run(b, step).outcome
    ensures forall i :: 0 <= i < |a + b| ==> step.requires((a + b)[i])
    ensures r == Run(a + b, step).outcome && fin == h + Run(a + b, step).events
  {
    RunAppend(a, b, step);
    Regroup2(h, Run(a, step).events, Run(b, step).events);
  }

  /**
   * Once the first i items have passed, one more item adds its events after
   * everything so far and decides the outcome.
   */
  lemma RunSnoc<T>(pre: seq<Event>, items: seq<T>, step: T --> Effects, i: nat)
    requires forall i :: 0 <= i < |items| ==> step.requires(items[i])
    requires i < |items| && Run(items[..i], step).outcome.Pass?
    ensures pre + Run(items[..i + 1], step).events == pre + Run(items[..i], step).events + step(items[i]).events
    ensures Run(items[..i + 1], step).outcome == step(items[i]).outcome
  {
    assert items[..i + 1][..i] == items[..i];
  }

  /** The run passes exactly when every item passes. */
  lemma {:induction false} RunPassIff<T>(items: seq<T>, step: T --> Effects)
    requires forall i :: 0 <= i < |items| ==> step.requires(items[i])
    ensures Run(items, step).outcome.Pass? <==> forall i :: 0 <= i < |items| ==> step(items[i]).outcome.Pass?
    decreases |items|
  {
    if items != [] {
      var init := items[..|items| - 1];
      RunPassIff(init, step);
      assert forall i :: 0 <= i < |init| ==> init[i] == items[i];
    }
  }

  /**
   * When each passing item appends one row and a failing item none, a passing run
   * appends one row per item, in listing order, and a failing run fewer rows than
   * items.
   */
  lemma {:induction false} RunRows<T>(items: seq<T>, step: T --> Effects)
    requires forall i :: 0 <= i < |items| ==> step.requires(items[i])
    requires forall i :: 0 <= i < |items| ==>
      |Rows(step(items[i]).events)| == (if step(items[i]).outcome.Pass? then 1 else 0)
    ensures var e := Run(items, step);
      (e.outcome.Pass? ==> |Rows(e.events)| == |items|) && (e.outcome.Fail? ==> |Rows(e.events)| < |items|)
    ensures var e := Run(items, step);
      e.outcome.Pass? ==> forall i :: 0 <= i < |items| ==>
        step(items[i]).outcome.Pass? && Rows(e.events)[i] == Rows(step(items[i]).events)[0]
    decreases |items|
  {
    if items != [] {
      var init := items[..|items| - 1];
      RunRows(init, step);
      var prev := Run(init, step);
      var e := Run(items, step);
      if prev.outcome.Pass? {
        var last := step(items[|items| - 1]);
        assert e.events == prev.events + last.events && e.outcome == last.outcome;
        LedgerAppend(prev.events, last.events);
        if last.outcome.Pass? {
          forall i | 0 <= i < |items|
            ensures step(items[i]).outcome.Pass? && Rows(e.events)[i] == Rows(step(items[i]).events)[0]
          {
            if i < |init| {
              assert items[i] == init[i];
            }
          }
        }
      }
    }
  }

  /** Uploads and rows take turns: every even position of the ledger is an upload, every odd one a row. */
  predicate Alternates(l: seq<Event>)
  {
    forall i :: 0 <= i < |l| ==> (l[i].Upload? <==> i % 2 == 0)
  }

  lemma AlternatesAppend(a: seq<Event>, b: seq<Event>, pairs: nat)
    requires Alternates(a) && |a| == 2 * pairs && Alternates(b)
    ensures Alternates(a + b)
  {
    forall i | |a| <= i < |a + b|
      ensures (a + b)[i].Upload? <==> i % 2 == 0
    {
      assert (a + b)[i] == b[i - |a|];
    }
  }

  /**
   * The ledger of one item: its upload followed by its row when the item passes;
   * at most an upload, and no row, when it fails.
   */
  predicate LedgerShape(e: Effects)
  {
    var l := Ledger(e.events);
    Alternates(l) && (e.outcome.Pass? ==> |l| == 2) && (e.outcome.Fail? ==> |l| <= 1)
  }

  /**
   * When every item has that shape, the ledger of the run is upload, row, upload,
   * row, ...: each row follows its own upload, and only the item that failed can
   * leave an upload without a row.
   */
  lemma {:induction false} RunLedger<T>(items: seq<T>, step: T --> Effects)
    requires forall i :: 0 <= i < |items| ==> step.requires(items[i])
    requires forall i :: 0 <= i < |items| ==> LedgerShape(step(items[i]))
    ensures var e := Run(items, step);
      Alternates(Ledger(e.events)) &&
      (e.outcome.Pass? ==> |Ledger(e.events)| == 2 * |items|) &&
      (e.outcome.Fail? ==> |Ledger(e.events)| < 2 * |items|)
    decreases |items|
  {
    if items != [] {
      var init := items[..|items| - 1];
      assert forall i :: 0 <= i < |init| ==> step.requires(init[i]) && LedgerShape(step(init[i])) by {
        forall i | 0 <= i < |init| ensures step.requires(init[i]) && LedgerShape(step(init[i])) {
          assert init[i] == items[i];
        }
      }
      RunLedger(init, step);
      var prev := Run(init, step);
      if prev.outcome.Pass? {
        var x := items[|items| - 1];
        assert step.requires(x) && LedgerShape(step(x));
        var last := step(x);
        var lp, ll := Ledger(prev.events), Ledger(last.events);
        assert Run(items, step) == Effects(prev.events + last.events, last.outcome);
        LedgerAppend(prev.events, last.events);
        assert |lp| == 2 * |init|;
        AlternatesAppend(lp, ll, |init|);
      }
    }
  }

  // The journal of a crawl method is its history with each step's events added
  // in turn; the crawl's specification groups them after the history.

  lemma Regroup2(h: seq<Event>, a: seq<Event>, b: seq<Event>)
    ensures h + a + b == h + (a + b)
  {
  }

  lemma Regroup3(h: seq<Event>, a: seq<Event>, b: seq<Event>, c: seq<Event>)
    ensures h + a + b + c == h + (a + b + c)
  {
  }

  lemma Regroup4(h: seq<Event>, a: seq<Event>, b: seq<Event>, c: seq<Event>, d: seq<Event>)
    ensures h + a + b + c + d == h + (a + b + c + d)
  {
  }

  lemma Regroup5(h: seq<Event>, a: seq<Event>, b: seq<Event>, c: seq<Event>, d: seq<Event>, e: seq<Event>)
    ensures h + a + b + c + d + e == h + (a + b + c + d + e)
  {
  }

  /** Events that only drive the browser or search the mailbox. */
  predicate Browsing(events: seq<Event>)
  {
    forall i :: 0 <= i < |events| ==> events[i].Browse? || events[i].Search?
  }

  /** Browsing leaves the ledger as it is. */
  lemma AfterBrowsing(pre: seq<Event>, rest: seq<Event>)
    requires Browsing(pre)
    ensures Ledger(pre + rest) == Ledger(rest) && Rows(pre + rest) == Rows(rest)
  {
    LedgerFilters(pre);
    assert Ledger(pre) == [] && Rows(pre) == [] by {
      assert forall i :: 0 <= i < |pre| ==> !IsLedgerEvent(pre[i]);
    }
    LedgerAppend(pre, rest);
  }

  /**
   * A run between browsing steps: its ledger alternates; when it passes, it holds
   * an upload and a row per item and the rows are the items' rows in order; when it
   * fails, it holds fewer rows than items.
   */
  lemma {:induction false} FramedRun<T>(pre: seq<Event>, items: seq<T>, step: T --> Effects, post: seq<Event>)
    requires Browsing(pre) && Browsing(post)
    requires forall i :: 0 <= i < |items| ==> step.requires(items[i])
    requires forall i :: 0 <= i < |items| ==>
      LedgerShape(step(items[i])) &&
      |Rows(step(items[i]).events)| == (if step(items[i]).outcome.Pass? then 1 else 0)
    ensures var run := Run(items, step); var events := pre + run.events + post;
      && Alternates(Ledger(events))
      && (run.outcome.Pass? ==>
            |Ledger(events)| == 2 * |items| && |Rows(events)| == |items| &&
            forall i :: 0 <= i < |items| ==>
              step(items[i]).outcome.Pass? && Rows(events)[i] == Rows(step(items[i]).events)[0])
      && (run.outcome.Fail? ==> |Rows(events)| < |items|)
  {
    var run := Run(items, step);
    RunLedger(items, step);
    RunRows(items, step);
    assert pre + run.events + post == pre + (run.events + post);
    AfterBrowsing(pre, run.events + post);
    LedgerAppend(run.events, post);
    LedgerFilters(post);
  }

  /**
   * An item that browses, uploads one certificate and appends one row. A failure
   * before the upload leaves only the browsing; a failure after it leaves the
   * upload without its row.
   */
  function Item(browse: seq<Event>, upload: Result<Event>, append: Result<Event>): Effects
  {
    match upload
    case Err(e) => Effects(browse, Fail(e))
    case Ok(u) =>
      match append
      case Err(e) => Effects(browse + [u], Fail(e))
      case Ok(a) => Effects(browse + [u, a], Pass)
  }

  /** The journal of an item, step by step, is its history followed by the item's events. */
  lemma ItemJournal(h: seq<Event>, browse: seq<Event>, u: Event, a: Event)
    ensures h + browse + [u] == h + (browse + [u])
    ensures h + browse + [u] + [a] == h + (browse + [u, a])
  {
    assert browse + [u] + [a] == browse + [u, a];
  }

  /** An upload on its own is a ledger without rows. */
  lemma UploadAlone(u: Event)
    requires u.Upload?
    ensures Ledger([u]) == [u] && Rows([u]) == [] && Alternates([u])
  {
    assert [u][..0] == [];
  }

  /** An upload followed by its row is a ledger with that one row. */
  lemma UploadThenRow(u: Event, a: Event)
    requires u.Upload? && a.Append?
    ensures Ledger([u, a]) == [u, a] && Rows([u, a]) == [a.row] && Alternates([u, a])
  {
    UploadAlone(u);
    assert [u, a][..1] == [u];
  }

  /**
   * The ledger of such an item is its upload and its row when both stages succeed,
   * the upload alone when only the row fails, and nothing otherwise.
   */
  lemma {:induction false} ItemLedger(browse: seq<Event>, upload: Result<Event>, append: Result<Event>)
    requires Browsing(browse)
    requires upload.Ok? ==> upload.value.Upload?
    requires append.Ok? ==> append.value.Append?
    ensures var e := Item(browse, upload, append);
      && (e.outcome.Pass? <==> upload.Ok? && append.Ok?)
      && Ledger(e.events) == (if upload.Err? then [] else if append.Err? then [upload.value]
                              else [upload.value, append.value])
      && Rows(e.events) == (if e.outcome.Pass? then [append.value.row] else [])
      && LedgerShape(e)
  {
    LedgerFilters(browse);
    match upload
    case Err(_) =>
    case Ok(u) =>
      match append
      case Err(_) =>
        UploadAlone(u);
        LedgerAppend(browse, [u]);
      case Ok(a) =>
        UploadThenRow(u, a);
        LedgerAppend(browse, [u, a]);
  }



  // ---------------------------------------------------------------------------
  // crawl_newebpay_invoice

  const InvoiceSubject := "藍新金流電子發票開立通知"
  const InvoiceLinkLocator := "//*[text()=\"發票明細\"]/@href"
  const ReceivableAccount := "O_________1-1-5: 應收款項：應收未收之一切款項。"
  const OfficeExpenseAccount := "O_________5-2-12: 其他辦公費。"
  const InvoiceCertificate := "發票、收據"

  /**
   * What one invoice mail yields: the invoice link, the texts beside 開立日期 and
   * 發票金額, the listings of the download folder while the invoice downloads, the
   * id Drive gives the upload, and the clock when the row is written.
   */
  datatype InvoiceMail = InvoiceMail(link: Option<string>, issueText: Option<string>, amountText: Option<string>,
                                     listings: seq<seq<FileEntry>>, fileId: string, now: DateTime)

  /** The issue date of the invoice and the billing day twenty days before it. */
  function InvoiceDates(issueText: Option<string>): (r: Result<(Date, Date)>)
    ensures r.Ok? ==> Valid(r.value.0) && Valid(r.value.1)
  {
    match IssueDate(issueText)
    case Err(e) => Err(e)
    case Ok(issue) =>
      match BillingDay(issue)
      case Err(e) => Err(e)
      case Ok(billing) => Ok((issue, billing))
  }

  /** The upload of the downloaded invoice, named after the billing month, or what fails before it. */
  function InvoiceUpload(c: Config, m: InvoiceMail): (r: Result<Event>)
    ensures r.Ok? ==> r.value.Upload? && InvoiceDates(m.issueText).Ok?
  {
    match LatestDownload(c.downloadFolder, m.listings)
    case Err(e) => Err(e)
    case Ok(path) =>
      match InvoiceDates(m.issueText)
      case Err(e) => Err(e)
      case Ok(dates) => Ok(Upload(c.certificateFolder, InvoiceUploadName(InvoicePurpose(dates.1)), path, m.fileId))
  }

  /** The row of the invoice: dated on the issue day, for the billing month's fee, linking to the upload. */
  function InvoiceAppend(c: Config, m: InvoiceMail): (r: Result<Event>)
    requires ValidDateTime(m.now)
    ensures r.Ok? ==> r.value.Append?
  {
    match InvoiceDates(m.issueText)
    case Err(e) => Err(e)
    case Ok(dates) =>
      match InvoiceAmount(m.amountText)
      case Err(e) => Err(e)
      case Ok(amount) =>
        Ok(Append(c.sheetId, c.sheetRange,
                  SheetRow(m.now, Midnight(dates.0), InvoicePurpose(dates.1), ReceivableAccount, OfficeExpenseAccount,
                           IntV(amount), InvoiceCertificate, CertificateUrl(m.fileId), DefaultEmail, BoolV(false),
                           BoolV(false))))
  }

  /** The body of the loop over invoice mails: download, upload, append. */
  function InvoiceEffects(c: Config, m: InvoiceMail): Effects
    requires ValidDateTime(m.now)
  {
    match m.link
    case None => Effects([], Fail(MissingElement(InvoiceLinkLocator)))
    case Some(link) => Item(Steps(InvoiceDownloadActions(link)), InvoiceUpload(c, m), InvoiceAppend(c, m))
  }

  function InvoiceStep(c: Config): InvoiceMail --> Effects
  {
    (m: InvoiceMail) requires ValidDateTime(m.now) => InvoiceEffects(c, m)
  }

  /**
   * One invoice passes exactly when the mail has its link, the download completes,
   * the issue date reads and lies more than twenty days into the calendar, and the
   * amount reads. A passing mail uploads the download under the billing month's
   * name and then appends one row dated on the issue day, whose purpose names the
   * upload and whose certificate link is the uploaded file. A failing mail appends
   * nothing, and leaves an upload only when the amount is what failed.
   */
  lemma InvoiceItem(c: Config, m: InvoiceMail)
    requires ValidDateTime(m.now)
    ensures var e := InvoiceEffects(c, m);
      LedgerShape(e) && Rows(e.events) == (if e.outcome.Pass? then [InvoiceAppend(c, m).value.row] else [])
    ensures InvoiceEffects(c, m).outcome.Pass? <==>
      && m.link.Some? && LatestDownload(c.downloadFolder, m.listings).Ok? && IssueDate(m.issueText).Ok?
      && BillingDay(IssueDate(m.issueText).value).Ok? && InvoiceAmount(m.amountText).Ok?
    ensures var e := InvoiceEffects(c, m); var l := Ledger(e.events);
      e.outcome.Pass? ==>
        var issue := IssueDate(m.issueText).value;
        var purpose := InvoicePurpose(BillingDay(issue).value);
        && l[0] == Upload(c.certificateFolder, InvoiceUploadName(purpose),
                          LatestDownload(c.downloadFolder, m.listings).value, m.fileId)
        && l[1].Append? && l[1].sheetId == c.sheetId && l[1].range == c.sheetRange
        && l[1].row.now == m.now && l[1].row.date == Midnight(issue) && l[1].row.purpose == purpose
        && l[1].row.fromAccount == ReceivableAccount && l[1].row.toAccount == OfficeExpenseAccount
        && l[1].row.amount == IntV(InvoiceAmount(m.amountText).value)
        && l[1].row.certificateUpload == CertificateUrl(l[0].fileId)
    ensures var e := InvoiceEffects(c, m);
      e.outcome.Fail? && |Ledger(e.events)| == 1 ==> InvoiceAmount(m.amountText).Err?
  {
    if m.link.Some? {
      ItemLedger(Steps(InvoiceDownloadActions(m.link.value)), InvoiceUpload(c, m), InvoiceAppend(c, m));
    }
  }

  /** Every mail of a listing has the ledger of one item, and a passing mail's row is its invoice row. */
  lemma InvoiceSteps(c: Config, mails: seq<InvoiceMail>)
    requires forall i :: 0 <= i < |mails| ==> ValidDateTime(mails[i].now)
    ensures forall i :: 0 <= i < |mails| ==>
      var e := InvoiceStep(c)(mails[i]);
      LedgerShape(e) && |Rows(e.events)| == (if e.outcome.Pass? then 1 else 0) &&
      (e.outcome.Pass? ==> InvoiceAppend(c, mails[i]).Ok? && Rows(e.events)[0] == InvoiceAppend(c, mails[i]).value.row)
  {
    forall i | 0 <= i < |mails|
      ensures var e := InvoiceStep(c)(mails[i]);
        LedgerShape(e) && |Rows(e.events)| == (if e.outcome.Pass? then 1 else 0) &&
        (e.outcome.Pass? ==> InvoiceAppend(c, mails[i]).Ok? && Rows(e.events)[0] == InvoiceAppend(c, mails[i]).value.row)
    {
      InvoiceItem(c, mails[i]);
    }
  }

  /**
   * crawl_newebpay_invoice, given the result of building its query: one search; no
   * "messages" key ends the crawl; otherwise the browser starts, each mail is
   * processed in order, and the browser quits once every mail has passed.
   */
  function InvoiceCrawl(c: Config, query: Result<string>, reply: Option<seq<InvoiceMail>>): Effects
    requires reply.Some? ==> forall i :: 0 <= i < |reply.value| ==> ValidDateTime(reply.value[i].now)
  {
    match query
    case Err(e) => Effects([], Fail(e))
    case Ok(q) =>
      match reply
      case None => Effects([Search(q)], Pass)
      case Some(mails) =>
        var run := Run(mails, InvoiceStep(c));
        var launch := Browse(Launch(c.chromeDriverPath, c.downloadFolder));
        Effects([Search(q), launch] + run.events + (if run.outcome.Pass? then [Browse(QuitBrowser)] else []),
                run.outcome)
  }

  /**
   * The ledger of the invoice crawl: nothing without mails; otherwise upload, row,
   * upload, row, ..., with one row per mail, in the order of the mails, when the
   * crawl passes, and fewer rows than mails when it fails.
   */
  lemma InvoiceCrawlLedger(c: Config, query: Result<string>, reply: Option<seq<InvoiceMail>>)
    requires reply.Some? ==> forall i :: 0 <= i < |reply.value| ==> ValidDateTime(reply.value[i].now)
    ensures var e := InvoiceCrawl(c, query, reply);
      Alternates(Ledger(e.events)) && ((reply.None? || reply == Some([])) ==> Ledger(e.events) == [])
    ensures var e := InvoiceCrawl(c, query, reply);
      e.outcome.Pass? && reply.Some? ==>
        |Ledger(e.events)| == 2 * |reply.value| && |Rows(e.events)| == |reply.value| &&
        forall i :: 0 <= i < |reply.value| ==>
          InvoiceAppend(c, reply.value[i]).Ok? && Rows(e.events)[i] == InvoiceAppend(c, reply.value[i]).value.row
    ensures var e := InvoiceCrawl(c, query, reply);
      e.outcome.Fail? ==> (query.Err? && e.events == []) || (reply.Some? && |Rows(e.events)| < |reply.value|)
  {
    if query.Ok? && reply.Some? {
      var mails := reply.value;
      var start := [Search(query.value), Browse(Launch(c.chromeDriverPath, c.downloadFolder))];
      var run := Run(mails, InvoiceStep(c));
      var quit: seq<Event> := if run.outcome.Pass? then [Browse(QuitBrowser)] else [];
      assert InvoiceCrawl(c, query, reply) == Effects(start + run.events + quit, run.outcome);
      InvoiceMailsLedger(c, start, mails);
    }
  }

  /** The invoice mails between the browsing that opens the crawl and the quit that closes it. */
  lemma InvoiceMailsLedger(c: Config, pre: seq<Event>, mails: seq<InvoiceMail>)
    requires Browsing(pre)
    requires forall i :: 0 <= i < |mails| ==> ValidDateTime(mails[i].now)
    ensures var run := Run(mails, InvoiceStep(c));
      var events := pre + run.events + (if run.outcome.Pass? then [Browse(QuitBrowser)] else []);
      && Alternates(Ledger(events))
      && (run.outcome.Pass? ==>
            |Ledger(events)| == 2 * |mails| && |Rows(events)| == |mails| &&
            forall i :: 0 <= i < |mails| ==>
              InvoiceAppend(c, mails[i]).Ok? && Rows(events)[i] == InvoiceAppend(c, mails[i]).value.row)
      && (run.outcome.Fail? ==> |Rows(events)| < |mails|)
  {
    var step := InvoiceStep(c);
    var quit: seq<Event> := if Run(mails, step).outcome.Pass? then [Browse(QuitBrowser)] else [];
    InvoiceSteps(c, mails);
    FramedRun(pre, mails, step, quit);
  }


  // ---------------------------------------------------------------------------
  // crawl_transfer_result

  const TransferSubject := "提領到帳"
  const BankAccount := "O_________1-1-2-1: 華南銀行存款"
  const TransferCertificate := "現金、票據、證券等之收付移轉單據"

  /**
   * What one transfer mail yields: its date (datetime.fromtimestamp of the mail's
   * internalDate, in the host's time zone), the text beside 提領藍新金流帳戶, and
   * the clock when the row is written.
   */
  datatype TransferMail = TransferMail(date: DateTime, amountText: Option<string>, now: DateTime)

  predicate TransferMailValid(m: TransferMail)
  {
    ValidDateTime(m.date) && ValidDateTime(m.now)
  }

  /** The row of a transfer: dated at the mail's time, for that day's withdrawal, with no certificate. */
  function TransferAppend(c: Config, m: TransferMail): (r: Result<Event>)
    requires TransferMailValid(m)
    ensures r.Ok? ==> r.value.Append?
  {
    match TransferAmount(m.amountText)
    case Err(e) => Err(e)
    case Ok(amount) =>
      Ok(Append(c.sheetId, c.sheetRange,
                SheetRow(m.now, m.date, TransferPurpose(m.date.date), ReceivableAccount, BankAccount, IntV(amount),
                         TransferCertificate, "", DefaultEmail, BoolV(false), BoolV(false))))
  }

  /** The body of the loop over transfer mails: one row, nothing uploaded, no browser. */
  function TransferEffects(c: Config, m: TransferMail): Effects
    requires TransferMailValid(m)
  {
    match TransferAppend(c, m)
    case Err(e) => Effects([], Fail(e))
    case Ok(a) => Effects([a], Pass)
  }

  function TransferStep(c: Config): TransferMail --> Effects
  {
    (m: TransferMail) requires TransferMailValid(m) => TransferEffects(c, m)
  }

  /**
   * One transfer passes exactly when its amount reads. A passing mail appends one
   * row, dated at the mail's time, whose purpose names the mail's day, with the
   * amount read and no certificate link; a failing mail does nothing.
   */
  lemma TransferItem(c: Config, m: TransferMail)
    requires TransferMailValid(m)
    ensures TransferEffects(c, m).outcome.Pass? <==> TransferAmount(m.amountText).Ok?
    ensures var e := TransferEffects(c, m);
      && (forall k :: 0 <= k < |e.events| ==> e.events[k].Append?)
      && Rows(e.events) == (if e.outcome.Pass? then [TransferAppend(c, m).value.row] else [])
    ensures var e := TransferEffects(c, m);
      e.outcome.Pass? ==>
        var row := Rows(e.events)[0];
        && row.now == m.now && row.date == m.date && row.purpose == TransferPurpose(m.date.date)
        && row.fromAccount == ReceivableAccount && row.toAccount == BankAccount
        && row.amount == IntV(TransferAmount(m.amountText).value) && row.certificateUpload == ""
  {
    var e := TransferEffects(c, m);
    if e.outcome.Pass? {
      assert Rows(e.events) == Rows([]) + [TransferAppend(c, m).value.row] by {
        assert e.events[..0] == [];
      }
    }
  }

  /** A run whose every item only appends rows only appends rows. */
  lemma {:induction false} RunAppendsOnly<T>(items: seq<T>, step: T --> Effects)
    requires forall i :: 0 <= i < |items| ==> step.requires(items[i])
    requires forall i :: 0 <= i < |items| ==>
      forall k :: 0 <= k < |step(items[i]).events| ==> step(items[i]).events[k].Append?
    ensures forall k :: 0 <= k < |Run(items, step).events| ==> Run(items, step).events[k].Append?
    decreases |items|
  {
    if items != [] {
      var init := items[..|items| - 1];
      assert forall i :: 0 <= i < |init| ==> init[i] == items[i];
      RunAppendsOnly(init, step);
    }
  }

  /** Every transfer mail of a listing appends its row when it passes, and nothing else. */
  lemma TransferSteps(c: Config, mails: seq<TransferMail>)
    requires forall i :: 0 <= i < |mails| ==> TransferMailValid(mails[i])
    ensures forall i :: 0 <= i < |mails| ==>
      var e := TransferStep(c)(mails[i]);
      && (forall k :: 0 <= k < |e.events| ==> e.events[k].Append?)
      && |Rows(e.events)| == (if e.outcome.Pass? then 1 else 0)
      && (e.outcome.Pass? ==> TransferAppend(c, mails[i]).Ok? &&
                               Rows(e.events)[0] == TransferAppend(c, mails[i]).value.row)
  {
    forall i | 0 <= i < |mails|
      ensures var e := TransferStep(c)(mails[i]);
        && (forall k :: 0 <= k < |e.events| ==> e.events[k].Append?)
        && |Rows(e.events)| == (if e.outcome.Pass? then 1 else 0)
        && (e.outcome.Pass? ==> TransferAppend(c, mails[i]).Ok? &&
                                 Rows(e.events)[0] == TransferAppend(c, mails[i]).value.row)
    {
      TransferItem(c, mails[i]);
    }
  }

  /** crawl_transfer_result, given the result of building its query: one search, then each mail in order. */
  function TransferCrawl(c: Config, query: Result<string>, reply: Option<seq<TransferMail>>): Effects
    requires reply.Some? ==> forall i :: 0 <= i < |reply.value| ==> TransferMailValid(reply.value[i])
  {
    match query
    case Err(e) => Effects([], Fail(e))
    case Ok(q) =>
      match reply
      case None => Effects([Search(q)], Pass)
      case Some(mails) =>
        var run := Run(mails, TransferStep(c));
        Effects([Search(q)] + run.events, run.outcome)
  }

  /**
   * The transfer crawl never uploads; without mails it appends nothing; a passing
   * crawl appends one row per mail, in the order of the mails, and a failing one
   * fewer rows than mails.
   */
  lemma TransferCrawlRows(c: Config, query: Result<string>, reply: Option<seq<TransferMail>>)
    requires reply.Some? ==> forall i :: 0 <= i < |reply.value| ==> TransferMailValid(reply.value[i])
    ensures var e := TransferCrawl(c, query, reply);
      && (forall k :: 0 <= k < |e.events| ==> !e.events[k].Upload?)
      && ((reply.None? || reply == Some([])) ==> Rows(e.events) == [])
    ensures var e := TransferCrawl(c, query, reply);
      e.outcome.Pass? && reply.Some? ==>
        |Rows(e.events)| == |reply.value| &&
        forall i :: 0 <= i < |reply.value| ==>
          TransferAppend(c, reply.value[i]).Ok? && Rows(e.events)[i] == TransferAppend(c, reply.value[i]).value.row
    ensures var e := TransferCrawl(c, query, reply);
      e.outcome.Fail? ==> (query.Err? && e.events == []) || (reply.Some? && |Rows(e.events)| < |reply.value|)
  {
    if query.Ok? {
      var search := [Search(query.value)];
      LedgerFilters(search);
      if reply.Some? {
        var mails := reply.value;
        var step := TransferStep(c);
        TransferSteps(c, mails);
        RunAppendsOnly(mails, step);
        RunRows(mails, step);
        AfterBrowsing(search, Run(mails, step).events);
      }
    }
  }

  // ---------------------------------------------------------------------------
  // crawl_neti_result

  const ReceiptLinkText := "收據"
  const DonorNameClass := "crm-search-display_name"
  const DonateIdClass := "crm-contribution-trxn-id"
  const OtherIncomeAccount := "O_____4-9: 其他收入：不屬於上列之各項收入。"
  const ReceiptCertificate := "發票、收據"

  /**
   * What one row of the donation table yields: the receipt link, the listings of
   * the download folder, the donor name, the donation id, the receive-date and
   * amount cells, the id Drive gives the upload, and the clock.
   */
  datatype DonationRow = DonationRow(receiptLink: Option<string>, listings: seq<seq<FileEntry>>,
                                     name: Option<string>, donateId: Option<string>, dateText: Option<string>,
                                     priceText: Option<string>, fileId: string, now: DateTime)

  /** The purpose of a donation, from the donor name and the donation id of its row. */
  function DonationTitle(d: DonationRow): Result<string>
  {
    match d.name
    case None => Err(MissingElement(DonorNameClass))
    case Some(name) =>
      match d.donateId
      case None => Err(MissingElement(DonateIdClass))
      case Some(donateId) => Ok(DonationPurpose(name, donateId))
  }

  /** The upload of the downloaded receipt, named after the donation, or what fails before it. */
  function DonationUpload(c: Config, d: DonationRow): (r: Result<Event>)
    ensures r.Ok? ==> r.value.Upload? && DonationTitle(d).Ok?
  {
    match LatestDownload(c.downloadFolder, d.listings)
    case Err(e) => Err(e)
    case Ok(path) =>
      match DonationTitle(d)
      case Err(e) => Err(e)
      case Ok(purpose) => Ok(Upload(c.certificateFolder, ReceiptUploadName(purpose), path, d.fileId))
  }

  /** The row of the donation: dated on the receive date, for the donation, linking to the upload. */
  function DonationAppend(c: Config, d: DonationRow): (r: Result<Event>)
    requires ValidDateTime(d.now)
    ensures r.Ok? ==> r.value.Append?
  {
    match DonationTitle(d)
    case Err(e) => Err(e)
    case Ok(purpose) =>
      match DonationDate(d.dateText)
      case Err(e) => Err(e)
      case Ok(day) =>
        match DonationPrice(d.priceText)
        case Err(e) => Err(e)
        case Ok(price) =>
          Ok(Append(c.sheetId, c.sheetRange,
                    SheetRow(d.now, Midnight(day), purpose, OtherIncomeAccount, ReceivableAccount, IntV(price),
                             ReceiptCertificate, CertificateUrl(d.fileId), DefaultEmail, BoolV(false),
                             BoolV(false))))
  }

  /** The body of the loop over donation rows: open the receipt, upload it, append. */
  function DonationEffects(c: Config, d: DonationRow): Effects
    requires ValidDateTime(d.now)
  {
    match d.receiptLink
    case None => Effects([], Fail(MissingElement(ReceiptLinkText)))
    case Some(link) => Item([Browse(Navigate(link))], DonationUpload(c, d), DonationAppend(c, d))
  }

  function DonationStep(c: Config): DonationRow --> Effects
  {
    (d: DonationRow) requires ValidDateTime(d.now) => DonationEffects(c, d)
  }

  /**
   * One donation passes exactly when its row has the receipt link, the download
   * completes, the name and id cells are there, and the date and amount cells
   * read. A passing row uploads the receipt under the donation's purpose and then
   * appends one row on the receive date whose certificate link is the uploaded
   * file. A failing row appends nothing, and leaves an upload only when its date
   * or amount is what failed.
   */
  lemma DonationItem(c: Config, d: DonationRow)
    requires ValidDateTime(d.now)
    ensures var e := DonationEffects(c, d);
      LedgerShape(e) && Rows(e.events) == (if e.outcome.Pass? then [DonationAppend(c, d).value.row] else [])
    ensures DonationEffects(c, d).outcome.Pass? <==>
      && d.receiptLink.Some? && LatestDownload(c.downloadFolder, d.listings).Ok? && d.name.Some?
      && d.donateId.Some? && DonationDate(d.dateText).Ok? && DonationPrice(d.priceText).Ok?
    ensures var e := DonationEffects(c, d); var l := Ledger(e.events);
      e.outcome.Pass? ==>
        var purpose := DonationPurpose(d.name.value, d.donateId.value);
        && l[0] == Upload(c.certificateFolder, ReceiptUploadName(purpose),
                          LatestDownload(c.downloadFolder, d.listings).value, d.fileId)
        && l[1].Append? && l[1].sheetId == c.sheetId && l[1].range == c.sheetRange
        && l[1].row.now == d.now && l[1].row.date == Midnight(DonationDate(d.dateText).value)
        && l[1].row.purpose == purpose
        && l[1].row.fromAccount == OtherIncomeAccount && l[1].row.toAccount == ReceivableAccount
        && l[1].row.amount == IntV(DonationPrice(d.priceText).value)
        && l[1].row.certificateUpload == CertificateUrl(l[0].fileId)
    ensures var e := DonationEffects(c, d);
      e.outcome.Fail? && |Ledger(e.events)| == 1 ==> DonationDate(d.dateText).Err? || DonationPrice(d.priceText).Err?
  {
    if d.receiptLink.Some? {
      ItemLedger([Browse(Navigate(d.receiptLink.value))], DonationUpload(c, d), DonationAppend(c, d));
    }
  }

  /** Every row of a table has the ledger of one item, and a passing row's row is its donation row. */
  lemma DonationSteps(c: Config, rows: seq<DonationRow>)
    requires forall i :: 0 <= i < |rows| ==> ValidDateTime(rows[i].now)
    ensures forall i :: 0 <= i < |rows| ==>
      var e := DonationStep(c)(rows[i]);
      LedgerShape(e) && |Rows(e.events)| == (if e.outcome.Pass? then 1 else 0) &&
      (e.outcome.Pass? ==> DonationAppend(c, rows[i]).Ok? && Rows(e.events)[0] == DonationAppend(c, rows[i]).value.row)
  {
    forall i | 0 <= i < |rows|
      ensures var e := DonationStep(c)(rows[i]);
        LedgerShape(e) && |Rows(e.events)| == (if e.outcome.Pass? then 1 else 0) &&
        (e.outcome.Pass? ==> DonationAppend(c, rows[i]).Ok? && Rows(e.events)[0] == DonationAppend(c, rows[i]).value.row)
    {
      DonationItem(c, rows[i]);
    }
  }

  /** The browser steps of crawl_neti_result up to the login check: launch, then log in. */
  function LoginSteps(c: Config): (events: seq<Event>)
    ensures Browsing(events)
  {
    [Browse(Launch(c.chromeDriverPath, c.downloadFolder))] +
    Steps(LoginActions(c.netiLoginUrl, c.netiAccountName, c.netiPassword))
  }

  /** The browser steps of crawl_neti_result before its loop: launch, log in, search. */
  function NetiBrowsing(c: Config, startDate: Date, endDate: Date): (events: seq<Event>)
    requires Valid(startDate) && Valid(endDate)
    ensures Browsing(events)
  {
    LoginSteps(c) + Steps(DonationSearchActions(startDate, endDate))
  }

  /**
   * The donation rows after the browsing steps `pre`: no rows ends the crawl with
   * the browser left open; otherwise each row is processed in order and the
   * browser quits once every row has passed.
   */
  function DonationRun(c: Config, pre: seq<Event>, rows: seq<DonationRow>): Effects
    requires forall i :: 0 <= i < |rows| ==> ValidDateTime(rows[i].now)
  {
    if rows == [] then Effects(pre, Pass)
    else
      var run := Run(rows, DonationStep(c));
      Effects(pre + run.events + (if run.outcome.Pass? then [Browse(QuitBrowser)] else []), run.outcome)
  }

  /**
   * After browsing only, the ledger of the donation rows is upload, row, upload,
   * row, ..., empty without rows, with one row per donation, in table order, when
   * the run passes and fewer rows than donations when it fails.
   */
  lemma DonationRunLedger(c: Config, pre: seq<Event>, rows: seq<DonationRow>)
    requires Browsing(pre)
    requires forall i :: 0 <= i < |rows| ==> ValidDateTime(rows[i].now)
    ensures var e := DonationRun(c, pre, rows);
      Alternates(Ledger(e.events)) && (rows == [] ==> Ledger(e.events) == [] && e.outcome.Pass?)
    ensures var e := DonationRun(c, pre, rows);
      e.outcome.Pass? ==>
        |Ledger(e.events)| == 2 * |rows| && |Rows(e.events)| == |rows| &&
        forall i :: 0 <= i < |rows| ==>
          DonationAppend(c, rows[i]).Ok? && Rows(e.events)[i] == DonationAppend(c, rows[i]).value.row
    ensures var e := DonationRun(c, pre, rows);
      e.outcome.Fail? ==> |Rows(e.events)| < |rows|
  {
    if rows == [] {
      LedgerFilters(pre);
    } else {
      var step := DonationStep(c);
      var quit: seq<Event> := if Run(rows, step).outcome.Pass? then [Browse(QuitBrowser)] else [];
      DonationSteps(c, rows);
      FramedRun(pre, rows, step, quit);
    }
  }

  /**
   * crawl_neti_result: the browser starts and logs in (a failed login raises), the
   * donations of the period are searched (a page without a result table has no
   * rows), and the rows are processed.
   */
  function NetiCrawl(c: Config, startDate: Date, endDate: Date, urlAfterSubmit: string,
                     table: Option<seq<DonationRow>>): Effects
    requires Valid(startDate) && Valid(endDate)
    requires table.Some? ==> forall i :: 0 <= i < |table.value| ==> ValidDateTime(table.value[i].now)
  {
    match LoginOutcome(c.netiLoginUrl, urlAfterSubmit)
    case Fail(e) => Effects(LoginSteps(c), Fail(e))
    case Pass => DonationRun(c, NetiBrowsing(c, startDate, endDate), if table.Some? then table.value else [])
  }

  /**
   * The ledger of the donation crawl: nothing when the login fails or the table is
   * missing or empty; otherwise upload, row, upload, row, ..., with one row per
   * donation, in table order, when the crawl passes, and fewer rows than
   * donations when it fails.
   */
  lemma NetiCrawlLedger(c: Config, startDate: Date, endDate: Date, urlAfterSubmit: string,
                        table: Option<seq<DonationRow>>)
    requires Valid(startDate) && Valid(endDate)
    requires table.Some? ==> forall i :: 0 <= i < |table.value| ==> ValidDateTime(table.value[i].now)
    ensures var e := NetiCrawl(c, startDate, endDate, urlAfterSubmit, table);
      Alternates(Ledger(e.events)) &&
      ((table.None? || table == Some([]) || urlAfterSubmit == c.netiLoginUrl) ==> Ledger(e.events) == [])
    ensures var e := NetiCrawl(c, startDate, endDate, urlAfterSubmit, table);
      e.outcome.Pass? && table.Some? ==>
        |Ledger(e.events)| == 2 * |table.value| && |Rows(e.events)| == |table.value| &&
        forall i :: 0 <= i < |table.value| ==>
          DonationAppend(c, table.value[i]).Ok? && Rows(e.events)[i] == DonationAppend(c, table.value[i]).value.row
    ensures var e := NetiCrawl(c, startDate, endDate, urlAfterSubmit, table);
      e.outcome.Fail? ==> urlAfterSubmit == c.netiLoginUrl || (table.Some? && |Rows(e.events)| < |table.value|)
  {
    if urlAfterSubmit == c.netiLoginUrl {
      LedgerFilters(LoginSteps(c));
    } else {
      DonationRunLedger(c, NetiBrowsing(c, startDate, endDate), if table.Some? then table.value else []);
    }
  }

  // ---------------------------------------------------------------------------
  // The Gmail query of a crawl

  /** build_gamil_search_query(subject=..., start_date=..., end_date=...), as the crawlers of mails call it. */
  function CrawlQuery(subject: string, clock: Clock, startDate: Date, endDate: Date): Result<string>
    requires ValidClock(clock) && Valid(startDate) && Valid(endDate)
  {
    BuildGmailSearchQuery(clock, None, Some(subject), Some(startDate), Some(endDate), None)
  }

  /**
   * The query of a crawl does not depend on the clock, and searches the subject
   * from the start date up to, but not including, the day after the end date.
   */
  lemma CrawlQueryOfPeriod(subject: string, clock: Clock, clock': Clock, startDate: Date, endDate: Date, next: Date)
    requires ValidClock(clock) && ValidClock(clock') && Valid(startDate) && Valid(endDate)
    requires Valid(next) && ToOrdinal(next) == ToOrdinal(endDate) + 1
    ensures CrawlQuery(subject, clock, startDate, endDate) == CrawlQuery(subject, clock', startDate, endDate)
    ensures CrawlQuery(subject, clock, startDate, endDate) ==
      Ok(SubjectClause(Some(subject)) + AfterClause(Some(startDate)) + "before:" + FormatPadded(next, '/') + " ")
  {
    RelativeDaysIgnored(clock, clock', None, Some(subject), Some(startDate), Some(endDate), None, None);
    DateBoundQuery(clock, None, Some(subject), Some(startDate), endDate, None, next);
    var sc := SubjectClause(Some(subject));
    assert TextClause(None) + sc == sc by {
      assert TextClause(None) == [];
    }
  }

  // ---------------------------------------------------------------------------
  // The robot object

  class ZazaRobot {
    const config: Config
    const startDate: Date
    const endDate: Date
    const log: Log
    const gmail: GmailService
    const drive: DriveService
    const sheets: SheetsService

    /** Every service writes to the robot's journal, with the folder and sheet of the configuration. */
    predicate Wired()
    {
      Valid(startDate) && Valid(endDate) &&
      gmail.log == log && drive.log == log && sheets.log == log &&
      drive.uploadFolder == config.certificateFolder &&
      sheets.sheetId == config.sheetId && sheets.sheetRange == config.sheetRange
    }

    constructor(startDate: Date, endDate: Date, config: Config, log: Log)
      requires Valid(startDate) && Valid(endDate)
      ensures this.startDate == startDate && this.endDate == endDate && this.config == config && this.log == log
      ensures Wired()
    {
      this.config := config;
      this.startDate := startDate;
      this.endDate := endDate;
      this.log := log;
      this.gmail := new GmailService(log);
      this.drive := new DriveService(config.certificateFolder, log);
      this.sheets := new SheetsService(config.sheetId, config.sheetRange, log);
    }

    /** One invoice mail: download, upload, add the row. */
    method ProcessInvoice(browser: BrowserHelper, m: InvoiceMail) returns (r: Outcome)
      requires Wired() && browser.log == log && browser.downloadFolder == config.downloadFolder
      requires ValidDateTime(m.now)
      modifies log
      ensures r == InvoiceEffects(config, m).outcome
      ensures log.events == old(log.events) + InvoiceEffects(config, m).events
    {
      if m.link.None? {
        return Fail(MissingElement(InvoiceLinkLocator));
      }
      ghost var browse := Steps(InvoiceDownloadActions(m.link.value));
      assert InvoiceEffects(config, m) == Item(browse, InvoiceUpload(config, m), InvoiceAppend(config, m));
      browser.DownloadInvoice(m.link.value);
      var fileId := UploadInvoice(browser, m);
      if fileId.Err? {
        return Fail(fileId.error);
      }
      r := AddInvoiceRow(m, fileId.value);
      if r.Pass? {
        ItemJournal(old(log.events), browse, InvoiceUpload(config, m).value, InvoiceAppend(config, m).value);
      }
    }

    /** The invoice has been downloaded: find the file, read the dates, upload it under the billing month's name. */
    method UploadInvoice(browser: BrowserHelper, m: InvoiceMail) returns (fileId: Result<string>)
      requires Wired() && browser.log == log && browser.downloadFolder == config.downloadFolder
      modifies log
      ensures fileId.Ok? <==> InvoiceUpload(config, m).Ok?
      ensures fileId.Err? ==> fileId.error == InvoiceUpload(config, m).error && log.events == old(log.events)
      ensures fileId.Ok? ==> fileId.value == m.fileId && log.events == old(log.events) + [InvoiceUpload(config, m).value]
    {
      var path := browser.GetLatestDownloadFilePath(m.listings);
      if path.Err? {
        return Err(path.error);
      }
      var dates := InvoiceDates(m.issueText);
      if dates.Err? {
        return Err(dates.error);
      }
      var purpose := InvoicePurpose(dates.value.1);
      var id := drive.PdfUpload(InvoiceUploadName(purpose), path.value, m.fileId);
      return Ok(id);
    }

    /** add_row for an invoice whose dates read and whose file is uploaded as `fileId`. */
    method AddInvoiceRow(m: InvoiceMail, fileId: string) returns (r: Outcome)
      requires Wired() && ValidDateTime(m.now) && InvoiceDates(m.issueText).Ok? && fileId == m.fileId
      modifies log
      ensures r.Pass? <==> InvoiceAppend(config, m).Ok?
      ensures r.Fail? ==> r.error == InvoiceAppend(config, m).error && log.events == old(log.events)
      ensures r.Pass? ==> log.events == old(log.events) + [InvoiceAppend(config, m).value]
    {
      var dates := InvoiceDates(m.issueText).value;
      var amount := InvoiceAmount(m.amountText);
      if amount.Err? {
        return Fail(amount.error);
      }
      assert InvoiceAppend(config, m) == Ok(Append(config.sheetId, config.sheetRange,
        SheetRow(m.now, Midnight(dates.0), InvoicePurpose(dates.1), ReceivableAccount, OfficeExpenseAccount,
                 IntV(amount.value), InvoiceCertificate, CertificateUrl(fileId), DefaultEmail, BoolV(false),
                 BoolV(false))));
      CrawlerRowPasses(amount.value, Midnight(dates.0), false, false);
      r := sheets.AddRow(m.now, DateTimeV(Midnight(dates.0)), InvoicePurpose(dates.1), IntV(amount.value),
                         ReceivableAccount, OfficeExpenseAccount, InvoiceCertificate, BoolV(false), BoolV(false),
                         CertificateUrl(fileId));
    }

    /**
     * crawl_newebpay_invoice: search the invoice mails of the period; `reply` is
     * Gmail's answer, `clock` the readings the query builder could take (the period's
     * bounds make it unused). With mails, the browser starts, each mail
     * is processed in order, and the browser quits once all have passed.
     */
    method CrawlNewebpayInvoice(clock: Clock, reply: Option<seq<InvoiceMail>>) returns (r: Outcome)
      requires Wired() && ValidClock(clock)
      requires reply.Some? ==> forall i :: 0 <= i < |reply.value| ==> ValidDateTime(reply.value[i].now)
      modifies log
      ensures r == InvoiceCrawl(config, CrawlQuery(InvoiceSubject, clock, startDate, endDate), reply).outcome
      ensures log.events == old(log.events) +
        InvoiceCrawl(config, CrawlQuery(InvoiceSubject, clock, startDate, endDate), reply).events
    {
      var query := CrawlQuery(InvoiceSubject, clock, startDate, endDate);
      if query.Err? {
        return Fail(query.error);
      }
      var result := gmail.GetGmailSearchResult(query.value, reply);
      if result.None? {
        return Pass;
      }
      var browser := new BrowserHelper(config.chromeDriverPath, config.downloadFolder, log);
      r := ProcessInvoices(browser, result.value);
      if r.Pass? {
        browser.Quit();
      }
      ghost var search, launch := Search(query.value), Browse(Launch(config.chromeDriverPath, config.downloadFolder));
      assert [search] + [launch] == [search, launch];
      Regroup4(old(log.events), [search], [launch], Run(result.value, InvoiceStep(config)).events,
               if r.Pass? then [Browse(QuitBrowser)] else []);
    }

    /** The loop of crawl_newebpay_invoice: the mails in order, until one fails. */
    method ProcessInvoices(browser: BrowserHelper, mails: seq<InvoiceMail>) returns (r: Outcome)
      requires Wired() && browser.log == log && browser.downloadFolder == config.downloadFolder
      requires forall i :: 0 <= i < |mails| ==> ValidDateTime(mails[i].now)
      modifies log
      ensures r == Run(mails, InvoiceStep(config)).outcome
      ensures log.events == old(log.events) + Run(mails, InvoiceStep(config)).events
    {
      var step := InvoiceStep(config);
      var i := 0;
      while i < |mails|
        invariant 0 <= i <= |mails|
        invariant Run(mails[..i], step).outcome.Pass?
        invariant log.events == old(log.events) + Run(mails[..i], step).events
      {
        RunSnoc(old(log.events), mails, step, i);
        var out := ProcessInvoice(browser, mails[i]);
        if out.Fail? {
          RunStopsAtFailure(mails, step, i + 1);
          return out;
        }
        i := i + 1;
      }
      assert mails[..i] == mails;
      return Pass;
    }

    /** One transfer mail: read the amount, add the row. */
    method ProcessTransfer(m: TransferMail) returns (r: Outcome)
      requires Wired() && TransferMailValid(m)
      modifies log
      ensures r == TransferEffects(config, m).outcome
      ensures log.events == old(log.events) + TransferEffects(config, m).events
    {
      var purpose := TransferPurpose(m.date.date);
      var amount := TransferAmount(m.amountText);
      if amount.Err? {
        return Fail(amount.error);
      }
      CrawlerRowPasses(amount.value, m.date, false, false);
      r := sheets.AddRow(m.now, DateTimeV(m.date), purpose, IntV(amount.value), ReceivableAccount, BankAccount,
                         TransferCertificate, BoolV(false), BoolV(false));
    }

    /** crawl_transfer_result: search the transfer mails of the period, process each in order. */
    method CrawlTransferResult(clock: Clock, reply: Option<seq<TransferMail>>) returns (r: Outcome)
      requires Wired() && ValidClock(clock)
      requires reply.Some? ==> forall i :: 0 <= i < |reply.value| ==> TransferMailValid(reply.value[i])
      modifies log
      ensures r == TransferCrawl(config, CrawlQuery(TransferSubject, clock, startDate, endDate), reply).outcome
      ensures log.events == old(log.events) +
        TransferCrawl(config, CrawlQuery(TransferSubject, clock, startDate, endDate), reply).events
    {
      var query := CrawlQuery(TransferSubject, clock, startDate, endDate);
      if query.Err? {
        return Fail(query.error);
      }
      var result := gmail.GetGmailSearchResult(query.value, reply);
      if result.None? {
        return Pass;
      }
      r := ProcessTransfers(result.value);
      Regroup2(old(log.events), [Search(query.value)], Run(result.value, TransferStep(config)).events);
    }

    /** The loop of crawl_transfer_result: the mails in order, until one fails. */
    method ProcessTransfers(mails: seq<TransferMail>) returns (r: Outcome)
      requires Wired()
      requires forall i :: 0 <= i < |mails| ==> TransferMailValid(mails[i])
      modifies log
      ensures r == Run(mails, TransferStep(config)).outcome
      ensures log.events == old(log.events) + Run(mails, TransferStep(config)).events
    {
      var step := TransferStep(config);
      var i := 0;
      while i < |mails|
        invariant 0 <= i <= |mails|
        invariant Run(mails[..i], step).outcome.Pass?
        invariant log.events == old(log.events) + Run(mails[..i], step).events
      {
        RunSnoc(old(log.events), mails, step, i);
        var out := ProcessTransfer(mails[i]);
        if out.Fail? {
          RunStopsAtFailure(mails, step, i + 1);
          return out;
        }
        i := i + 1;
      }
      assert mails[..i] == mails;
      return Pass;
    }

    /** One donation row: open its receipt, upload it, add the row. */
    method ProcessDonation(browser: BrowserHelper, d: DonationRow) returns (r: Outcome)
      requires Wired() && browser.log == log && browser.downloadFolder == config.downloadFolder
      requires ValidDateTime(d.now)
      modifies log
      ensures r == DonationEffects(config, d).outcome
      ensures log.events == old(log.events) + DonationEffects(config, d).events
    {
      if d.receiptLink.None? {
        return Fail(MissingElement(ReceiptLinkText));
      }
      ghost var browse := [Browse(Navigate(d.receiptLink.value))];
      assert DonationEffects(config, d) == Item(browse, DonationUpload(config, d), DonationAppend(config, d));
      browser.Get(d.receiptLink.value);
      var fileId := UploadReceipt(browser, d);
      if fileId.Err? {
        return Fail(fileId.error);
      }
      r := AddDonationRow(d, fileId.value);
      if r.Pass? {
        ItemJournal(old(log.events), browse, DonationUpload(config, d).value, DonationAppend(config, d).value);
      }
    }

    /** The receipt is open: find the download, read name and id, upload it under the donation's purpose. */
    method UploadReceipt(browser: BrowserHelper, d: DonationRow) returns (fileId: Result<string>)
      requires Wired() && browser.log == log && browser.downloadFolder == config.downloadFolder
      modifies log
      ensures fileId.Ok? <==> DonationUpload(config, d).Ok?
      ensures fileId.Err? ==> fileId.error == DonationUpload(config, d).error && log.events == old(log.events)
      ensures fileId.Ok? ==> fileId.value == d.fileId && log.events == old(log.events) + [DonationUpload(config, d).value]
    {
      var path := browser.GetLatestDownloadFilePath(d.listings);
      if path.Err? {
        return Err(path.error);
      }
      if d.name.None? {
        return Err(MissingElement(DonorNameClass));
      }
      if d.donateId.None? {
        return Err(MissingElement(DonateIdClass));
      }
      var purpose := DonationPurpose(d.name.value, d.donateId.value);
      var id := drive.PdfUpload(ReceiptUploadName(purpose), path.value, d.fileId);
      return Ok(id);
    }

    /** add_row for a donation whose name and id read and whose receipt is uploaded as `fileId`. */
    method AddDonationRow(d: DonationRow, fileId: string) returns (r: Outcome)
      requires Wired() && ValidDateTime(d.now) && DonationTitle(d).Ok? && fileId == d.fileId
      modifies log
      ensures r.Pass? <==> DonationAppend(config, d).Ok?
      ensures r.Fail? ==> r.error == DonationAppend(config, d).error && log.events == old(log.events)
      ensures r.Pass? ==> log.events == old(log.events) + [DonationAppend(config, d).value]
    {
      var purpose := DonationTitle(d).value;
      var day := DonationDate(d.dateText);
      if day.Err? {
        return Fail(day.error);
      }
      var price := DonationPrice(d.priceText);
      if price.Err? {
        return Fail(price.error);
      }
      assert DonationAppend(config, d) == Ok(Append(config.sheetId, config.sheetRange,
        SheetRow(d.now, Midnight(day.value), purpose, OtherIncomeAccount, ReceivableAccount, IntV(price.value),
                 ReceiptCertificate, CertificateUrl(fileId), DefaultEmail, BoolV(false), BoolV(false))));
      CrawlerRowPasses(price.value, Midnight(day.value), false, false);
      r := sheets.AddRow(d.now, DateTimeV(Midnight(day.value)), purpose, IntV(price.value), OtherIncomeAccount,
                         ReceivableAccount, ReceiptCertificate, BoolV(false), BoolV(false), CertificateUrl(fileId));
    }

    /**
     * crawl_neti_result: start the browser, log in (`urlAfterSubmit` is where the
     * form led), search the donations of the period (`table` is the result
     * table), and process each row in order.
     */
    method CrawlNetiResult(urlAfterSubmit: string, table: Option<seq<DonationRow>>) returns (r: Outcome)
      requires Wired()
      requires table.Some? ==> forall i :: 0 <= i < |table.value| ==> ValidDateTime(table.value[i].now)
      modifies log
      ensures r == NetiCrawl(config, startDate, endDate, urlAfterSubmit, table).outcome
      ensures log.events == old(log.events) + NetiCrawl(config, startDate, endDate, urlAfterSubmit, table).events
    {
      var browser := new BrowserHelper(config.chromeDriverPath, config.downloadFolder, log);
      var login := browser.LoginNeticrm(config.netiLoginUrl, config.netiAccountName, config.netiPassword,
                                        urlAfterSubmit);
      ghost var launch := [Browse(Launch(config.chromeDriverPath, config.downloadFolder))];
      ghost var loginSteps := Steps(LoginActions(config.netiLoginUrl, config.netiAccountName, config.netiPassword));
      if login.Fail? {
        Regroup2(old(log.events), launch, loginSteps);
        return login;
      }
      var rows := browser.SearchDonationByDate(startDate, endDate, table);
      ghost var searchSteps := Steps(DonationSearchActions(startDate, endDate));
      if |rows| == 0 {
        Regroup3(old(log.events), launch, loginSteps, searchSteps);
        return Pass;
      }
      r := ProcessDonations(browser, rows);
      if r.Pass? {
        browser.Quit();
      }
      Regroup5(old(log.events), launch, loginSteps, searchSteps, Run(rows, DonationStep(config)).events,
               if r.Pass? then [Browse(QuitBrowser)] else []);
    }

    /** The loop of crawl_neti_result: the rows in order, until one fails. */
    method ProcessDonations(browser: BrowserHelper, rows: seq<DonationRow>) returns (r: Outcome)
      requires Wired() && browser.log == log && browser.downloadFolder == config.downloadFolder
      requires forall i :: 0 <= i < |rows| ==> ValidDateTime(rows[i].now)
      modifies log
      ensures r == Run(rows, DonationStep(config)).outcome
      ensures log.events == old(log.events) + Run(rows, DonationStep(config)).events
    {
      var step := DonationStep(config);
      var i := 0;
      while i < |rows|
        invariant 0 <= i <= |rows|
        invariant Run(rows[..i], step).outcome.Pass?
        invariant log.events == old(log.events) + Run(rows[..i], step).events
      {
        RunSnoc(old(log.events), rows, step, i);
        var out := ProcessDonation(browser, rows[i]);
        if out.Fail? {
          RunStopsAtFailure(rows, step, i + 1);
          return out;
        }
        i := i + 1;
      }
      assert rows[..i] == rows;
      return Pass;
    }
  }
}
