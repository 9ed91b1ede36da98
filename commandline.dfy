/**
 * The command line of rpa_accounting.py: the two date options, the assertion
 * that the period is in order, and the crawlers the flags select, run in a
 * fixed order until one of them raises.
 */
module CommandLine {
  import opened Outcomes
  import opened Calendar
  import opened DateText
  import opened Journal
  import opened Robot
  import opened GmailQuery

  /** The three crawlers, in the order the program runs them. */
  datatype Crawler = NewebpayInvoice | TransferResult | NetiResult

  /**
   * The parsed options: the text given for --start_date and --end_date (None when
   * the option is absent) and the four crawl flags. --config is not modelled: the
   * configuration it names is given as a Config.
   */
  datatype Args = Args(startDate: Option<string>, endDate: Option<string>, crawlAll: bool,
                       crawlNewebpayInvoice: bool, crawlTransferResult: bool, crawlNetiResult: bool)

  // ---------------------------------------------------------------------------
  // Dates

  /** DateParseAction: datetime.strptime(values, "%Y-%m-%d").date(); a ValueError otherwise. */
  function ParseDateArgument(text: string): (r: Result<Date>)
    ensures r.Ok? ==> Valid(r.value)
  {
    match ParseDate(text, '-')
    case None => Err(BadDate(text))
    case Some(d) => Ok(d)
  }

  /** A date written YYYY-mm-dd reads back as itself. */
  lemma DateArgumentRoundTrip(d: Date)
    requires Valid(d)
    ensures ParseDateArgument(FormatPadded(d, '-')) == Ok(d)
  {
    ParseFormatPadded(d, '-');
  }

  /**
   * The default of a date option: the day before `today`, the date of
   * datetime.now in UTC+8; an OverflowError on the first day of year 1.
   */
  function Yesterday(today: Date): (r: Result<Date>)
    requires Valid(today)
    ensures r.Ok? <==> ToOrdinal(today) > 1
    ensures r.Ok? ==> Valid(r.value) && ToOrdinal(r.value) + 1 == ToOrdinal(today)
  {
    match AddDays(today, -1)
    case None => Err(DateOverflow)
    case Some(d) => Ok(d)
  }

  /** The value of a date option: the text given, parsed, or else the default. */
  function DateOption(given: Option<string>, default: Date): (r: Result<Date>)
    requires Valid(default)
    ensures r.Ok? ==> Valid(r.value)
  {
    match given
    case None => Ok(default)
    case Some(text) => ParseDateArgument(text)
  }

  /**
   * The period the crawlers observe. Both defaults are computed when the parser
   * is set up, each from its own reading of the clock (`clockStart` for
   * --start_date, `clockEnd` for --end_date), before any option is parsed; then
   * the options are parsed, and start_date <= end_date is asserted.
   */
  function Period(args: Args, clockStart: Date, clockEnd: Date): Result<(Date, Date)>
    requires Valid(clockStart) && Valid(clockEnd)
  {
    match Yesterday(clockStart)
    case Err(e) => Err(e)
    case Ok(defaultStart) =>
      match Yesterday(clockEnd)
      case Err(e) => Err(e)
      case Ok(defaultEnd) =>
        match DateOption(args.startDate, defaultStart)
        case Err(e) => Err(e)
        case Ok(startDate) =>
          match DateOption(args.endDate, defaultEnd)
          case Err(e) => Err(e)
          case Ok(endDate) => if OnOrBefore(startDate, endDate) then Ok((startDate, endDate)) else Err(BadDateRange)
  }

  /**
   * The period is accepted exactly when both clocks are past the first day of
   * the calendar, every date given parses, and the start is not after the end;
   * it is then made of valid dates in order, an absent option stands for the
   * day before its clock, and a given one for the date it writes. Dates that
   * parse but are out of order stop the program with the assertion.
   */
  lemma PeriodAccepted(args: Args, clockStart: Date, clockEnd: Date)
    requires Valid(clockStart) && Valid(clockEnd)
    ensures var p := Period(args, clockStart, clockEnd);
      p.Ok? <==>
        && ToOrdinal(clockStart) > 1 && ToOrdinal(clockEnd) > 1
        && DateOption(args.startDate, Yesterday(clockStart).value).Ok?
        && DateOption(args.endDate, Yesterday(clockEnd).value).Ok?
        && OnOrBefore(DateOption(args.startDate, Yesterday(clockStart).value).value,
                      DateOption(args.endDate, Yesterday(clockEnd).value).value)
    ensures var p := Period(args, clockStart, clockEnd);
      p.Ok? ==>
        && Valid(p.value.0) && Valid(p.value.1) && ToOrdinal(p.value.0) <= ToOrdinal(p.value.1)
        && (args.startDate.None? ==> ToOrdinal(p.value.0) + 1 == ToOrdinal(clockStart))
        && (args.endDate.None? ==> ToOrdinal(p.value.1) + 1 == ToOrdinal(clockEnd))
        && (args.startDate.Some? ==> ParseDate(args.startDate.value, '-') == Some(p.value.0))
        && (args.endDate.Some? ==> ParseDate(args.endDate.value, '-') == Some(p.value.1))
    ensures var p := Period(args, clockStart, clockEnd);
      p == Err(BadDateRange) <==>
        && ToOrdinal(clockStart) > 1 && ToOrdinal(clockEnd) > 1
        && DateOption(args.startDate, Yesterday(clockStart).value).Ok?
        && DateOption(args.endDate, Yesterday(clockEnd).value).Ok?
        && ToOrdinal(DateOption(args.endDate, Yesterday(clockEnd).value).value) <
           ToOrdinal(DateOption(args.startDate, Yesterday(clockStart).value).value)
  {
    var p := Period(args, clockStart, clockEnd);
    if ToOrdinal(clockStart) > 1 && ToOrdinal(clockEnd) > 1 {
      var s := DateOption(args.startDate, Yesterday(clockStart).value);
      var e := DateOption(args.endDate, Yesterday(clockEnd).value);
      if s.Ok? && e.Ok? {
        OrdinalOrder(s.value, e.value);
      }
    }
  }

  /** Without date options, and on the same day by both clocks, the period is the one day before it. */
  lemma DefaultPeriodIsYesterday(args: Args, today: Date, yesterday: Date)
    requires Valid(today) && Valid(yesterday) && ToOrdinal(yesterday) + 1 == ToOrdinal(today)
    requires args.startDate.None? && args.endDate.None?
    ensures Period(args, today, today) == Ok((yesterday, yesterday))
  {
    AddDaysUnique(today, -1, yesterday);
  }

  /** A period written out in the documented format is accepted as written, whatever the clocks say. */
  lemma GivenPeriod(args: Args, clockStart: Date, clockEnd: Date, startDate: Date, endDate: Date)
    requires Valid(clockStart) && Valid(clockEnd) && ToOrdinal(clockStart) > 1 && ToOrdinal(clockEnd) > 1
    requires Valid(startDate) && Valid(endDate) && OnOrBefore(startDate, endDate)
    requires args.startDate == Some(FormatPadded(startDate, '-')) && args.endDate == Some(FormatPadded(endDate, '-'))
    ensures Period(args, clockStart, clockEnd) == Ok((startDate, endDate))
  {
    DateArgumentRoundTrip(startDate);
    DateArgumentRoundTrip(endDate);
  }

  // ---------------------------------------------------------------------------
  // Crawler selection

  /** The flag that asks for one crawler. */
  function Flag(args: Args, k: Crawler): bool
  {
    match k
    case NewebpayInvoice => args.crawlNewebpayInvoice
    case TransferResult => args.crawlTransferResult
    case NetiResult => args.crawlNetiResult
  }

  /** The position of a crawler in the program's order. */
  function Rank(k: Crawler): nat
  {
    match k
    case NewebpayInvoice => 0
    case TransferResult => 1
    case NetiResult => 2
  }

  /** The crawler when its flag is given, nothing otherwise. */
  function Optional(flag: bool, k: Crawler): seq<Crawler>
  {
    if flag then [k] else []
  }

  /** -a runs all three crawlers; otherwise each flagged one runs. */
  function Selected(args: Args): seq<Crawler>
  {
    if args.crawlAll then [NewebpayInvoice, TransferResult, NetiResult]
    else
      Optional(args.crawlNewebpayInvoice, NewebpayInvoice) + Optional(args.crawlTransferResult, TransferResult) +
      Optional(args.crawlNetiResult, NetiResult)
  }

  /**
   * A crawler runs exactly when -a or its own flag is given; each runs at most
   * once, and always in the order invoice, transfer, donation, whatever the order
   * of the flags.
   */
  lemma SelectedCrawlers(args: Args)
    ensures forall k: Crawler :: k in Selected(args) <==> args.crawlAll || Flag(args, k)
    ensures forall i, j :: 0 <= i < j < |Selected(args)| ==> Rank(Selected(args)[i]) < Rank(Selected(args)[j])
    ensures args.crawlAll ==> |Selected(args)| == 3
  {
    var s := Selected(args);
    forall k: Crawler ensures k in s <==> args.crawlAll || Flag(args, k) {
      if args.crawlAll {
        assert s[Rank(k)] == k;
      } else {
        var a := Optional(args.crawlNewebpayInvoice, NewebpayInvoice);
        var b := Optional(args.crawlTransferResult, TransferResult);
        var c := Optional(args.crawlNetiResult, NetiResult);
        assert s == a + b + c;
        assert k in s <==> k in a || k in b || k in c;
        assert k in a <==> k == NewebpayInvoice && args.crawlNewebpayInvoice;
        assert k in b <==> k == TransferResult && args.crawlTransferResult;
        assert k in c <==> k == NetiResult && args.crawlNetiResult;
      }
    }
  }

  // ---------------------------------------------------------------------------
  // The run

  /**
   * What the crawlers read from outside: the clock readings the Gmail query
   * builder would take, Gmail's replies to the two searches, the page the
   * NetiCRM login form leads to, and the donation table.
   */
  datatype World = World(clock: Clock, invoiceReply: Option<seq<InvoiceMail>>,
                         transferReply: Option<seq<TransferMail>>, urlAfterSubmit: string,
                         donationTable: Option<seq<DonationRow>>)

  predicate WorldValid(w: World)
  {
    && ValidClock(w.clock)
    && (w.invoiceReply.Some? ==> forall i :: 0 <= i < |w.invoiceReply.value| ==> ValidDateTime(w.invoiceReply.value[i].now))
    && (w.transferReply.Some? ==> forall i :: 0 <= i < |w.transferReply.value| ==> TransferMailValid(w.transferReply.value[i]))
    && (w.donationTable.Some? ==> forall i :: 0 <= i < |w.donationTable.value| ==> ValidDateTime(w.donationTable.value[i].now))
  }

  /** What one crawler does over the period. */
  function CrawlerEffects(c: Config, startDate: Date, endDate: Date, w: World, k: Crawler): Effects
    requires Valid(startDate) && Valid(endDate) && WorldValid(w)
  {
    match k
    case NewebpayInvoice => InvoiceCrawl(c, CrawlQuery(InvoiceSubject, w.clock, startDate, endDate), w.invoiceReply)
    case TransferResult => TransferCrawl(c, CrawlQuery(TransferSubject, w.clock, startDate, endDate), w.transferReply)
    case NetiResult => NetiCrawl(c, startDate, endDate, w.urlAfterSubmit, w.donationTable)
  }

  function CrawlerStep(c: Config, startDate: Date, endDate: Date, w: World): Crawler --> Effects
  {
    (k: Crawler) requires Valid(startDate) && Valid(endDate) && WorldValid(w) => CrawlerEffects(c, startDate, endDate, w, k)
  }

  /** The program: settle the period, then run the selected crawlers in order; an exception ends it. */
  function Program(args: Args, clockStart: Date, clockEnd: Date, c: Config, w: World): Effects
    requires Valid(clockStart) && Valid(clockEnd) && WorldValid(w)
  {
    match Period(args, clockStart, clockEnd)
    case Err(e) => Effects([], Fail(e))
    case Ok(p) => Run(Selected(args), CrawlerStep(c, p.0, p.1, w))
  }

  /**
   * Nothing happens unless the period is accepted, nor when no crawler is
   * selected; the program succeeds exactly when the period is accepted and
   * every selected crawler succeeds, and a crawler that fails stops the ones
   * after it.
   */
  lemma ProgramOutcome(args: Args, clockStart: Date, clockEnd: Date, c: Config, w: World)
    requires Valid(clockStart) && Valid(clockEnd) && WorldValid(w)
    ensures var e := Program(args, clockStart, clockEnd, c, w);
      Period(args, clockStart, clockEnd).Err? ==> e == Effects([], Fail(Period(args, clockStart, clockEnd).error))
    ensures Period(args, clockStart, clockEnd).Ok? && Selected(args) == [] ==>
      Program(args, clockStart, clockEnd, c, w) == Effects([], Pass)
    ensures var e := Program(args, clockStart, clockEnd, c, w);
      e.outcome.Pass? <==>
        Period(args, clockStart, clockEnd).Ok? &&
        var p := Period(args, clockStart, clockEnd).value;
        forall i :: 0 <= i < |Selected(args)| ==> CrawlerEffects(c, p.0, p.1, w, Selected(args)[i]).outcome.Pass?
    ensures var p := Period(args, clockStart, clockEnd);
      p.Ok? ==> forall k ::
                  (0 <= k <= |Selected(args)| && Run(Selected(args)[..k], CrawlerStep(c, p.value.0, p.value.1, w)).outcome.Fail?) ==>
                  Program(args, clockStart, clockEnd, c, w) == Run(Selected(args)[..k], CrawlerStep(c, p.value.0, p.value.1, w))
  {
    var p := Period(args, clockStart, clockEnd);
    if p.Ok? {
      var s := Selected(args);
      var step := CrawlerStep(c, p.value.0, p.value.1, w);
      assert Program(args, clockStart, clockEnd, c, w) == Run(s, step);
      RunPassIff(s, step);
      forall k | 0 <= k <= |s| && Run(s[..k], step).outcome.Fail?
        ensures Run(s, step) == Run(s[..k], step)
      {
        RunStopsAtFailure(s, step, k);
      }
    }
  }

  /**
   * The __main__ block: parse the options, check the period, build the robot,
   * and call the selected crawl methods, stopping at the first that raises.
   */
  method RunCommandLine(args: Args, clockStart: Date, clockEnd: Date, config: Config, w: World, log: Log)
    returns (r: Outcome)
    requires Valid(clockStart) && Valid(clockEnd) && WorldValid(w)
    modifies log
    ensures r == Program(args, clockStart, clockEnd, config, w).outcome
    ensures log.events == old(log.events) + Program(args, clockStart, clockEnd, config, w).events
  {
    var period := Period(args, clockStart, clockEnd);
    if period.Err? {
      return Fail(period.error);
    }
    var robot := new ZazaRobot(period.value.0, period.value.1, config, log);
    r := RunSelected(robot, args, w);
  }

  /** The crawl methods the flags select, in order, stopping at the first that raises. */
  method RunSelected(robot: ZazaRobot, args: Args, w: World) returns (r: Outcome)
    requires robot.Wired() && WorldValid(w)
    modifies robot.log
    ensures r == Run(Selected(args), CrawlerStep(robot.config, robot.startDate, robot.endDate, w)).outcome
    ensures robot.log.events ==
      old(robot.log.events) + Run(Selected(args), CrawlerStep(robot.config, robot.startDate, robot.endDate, w)).events
  {
    if args.crawlAll {
      assert Selected(args) == Optional(true, NewebpayInvoice) + Optional(true, TransferResult) + Optional(true, NetiResult);
      r := RunFlagged(robot, true, true, true, w);
    } else {
      r := RunFlagged(robot, args.crawlNewebpayInvoice, args.crawlTransferResult, args.crawlNetiResult, w);
    }
  }

  /** Each crawl whose flag is set, invoice, transfer, donation, in that order; -a sets all three. */
  method RunFlagged(robot: ZazaRobot, invoice: bool, transfer: bool, neti: bool, w: World) returns (r: Outcome)
    requires robot.Wired() && WorldValid(w)
    modifies robot.log
    ensures var selected := Optional(invoice, NewebpayInvoice) + Optional(transfer, TransferResult) + Optional(neti, NetiResult);
      && r == Run(selected, CrawlerStep(robot.config, robot.startDate, robot.endDate, w)).outcome
      && robot.log.events ==
           old(robot.log.events) + Run(selected, CrawlerStep(robot.config, robot.startDate, robot.endDate, w)).events
  {
    ghost var step := CrawlerStep(robot.config, robot.startDate, robot.endDate, w);
    ghost var base := robot.log.events;
    ghost var ab := Optional(invoice, NewebpayInvoice) + Optional(transfer, TransferResult);
    ghost var c := Optional(neti, NetiResult);
    r := RunFlaggedPair(robot, w, invoice, NewebpayInvoice, transfer, TransferResult);
    if r.Fail? {
      RunAppend(ab, c, step);
      return;
    }
    ghost var mid := robot.log.events;
    r := RunIf(robot, w, neti, NetiResult);
    RunThen(base, ab, c, step, mid, robot.log.events, r);
  }

  /** Two flagged crawls in a row: the second runs only when the first did not raise. */
  method RunFlaggedPair(robot: ZazaRobot, w: World, flag1: bool, k1: Crawler, flag2: bool, k2: Crawler)
    returns (r: Outcome)
    requires robot.Wired() && WorldValid(w)
    modifies robot.log
    ensures var selected := Optional(flag1, k1) + Optional(flag2, k2);
      && r == Run(selected, CrawlerStep(robot.config, robot.startDate, robot.endDate, w)).outcome
      && robot.log.events ==
           old(robot.log.events) + Run(selected, CrawlerStep(robot.config, robot.startDate, robot.endDate, w)).events
  {
    ghost var step := CrawlerStep(robot.config, robot.startDate, robot.endDate, w);
    ghost var base := robot.log.events;
    ghost var a, b := Optional(flag1, k1), Optional(flag2, k2);
    r := RunIf(robot, w, flag1, k1);
    if r.Fail? {
      RunAppend(a, b, step);
      return;
    }
    ghost var mid := robot.log.events;
    r := RunIf(robot, w, flag2, k2);
    RunThen(base, a, b, step, mid, robot.log.events, r);
  }

  /** `if flag: crawl()`: the crawl runs when its flag is given. */
  method RunIf(robot: ZazaRobot, w: World, flag: bool, k: Crawler) returns (r: Outcome)
    requires robot.Wired() && WorldValid(w)
    modifies robot.log
    ensures r == Run(Optional(flag, k), CrawlerStep(robot.config, robot.startDate, robot.endDate, w)).outcome
    ensures robot.log.events ==
      old(robot.log.events) + Run(Optional(flag, k), CrawlerStep(robot.config, robot.startDate, robot.endDate, w)).events
  {
    if flag {
      assert [k][..0] == [] && [k][..1] == [k];
      r := RunNext(robot, w, robot.log.events, [k], 0, k);
    } else {
      assert robot.log.events + [] == robot.log.events;
      r := Pass;
    }
  }

  /**
   * The call of the i-th selected crawler, after the ones before it have all
   * succeeded: the journal then holds the run of the first i + 1.
   */
  method RunNext(robot: ZazaRobot, w: World, ghost base: seq<Event>, ghost selected: seq<Crawler>, ghost i: nat,
                 k: Crawler) returns (r: Outcome)
    requires robot.Wired() && WorldValid(w)
    requires i < |selected| && selected[i] == k
    requires Run(selected[..i], CrawlerStep(robot.config, robot.startDate, robot.endDate, w)).outcome.Pass?
    requires robot.log.events == base + Run(selected[..i], CrawlerStep(robot.config, robot.startDate, robot.endDate, w)).events
    modifies robot.log
    ensures r == Run(selected[..i + 1], CrawlerStep(robot.config, robot.startDate, robot.endDate, w)).outcome
    ensures robot.log.events == base + Run(selected[..i + 1], CrawlerStep(robot.config, robot.startDate, robot.endDate, w)).events
  {
    RunSnoc(base, selected, CrawlerStep(robot.config, robot.startDate, robot.endDate, w), i);
    match k {
      case NewebpayInvoice => r := robot.CrawlNewebpayInvoice(w.clock, w.invoiceReply);
      case TransferResult => r := robot.CrawlTransferResult(w.clock, w.transferReply);
      case NetiResult => r := robot.CrawlNetiResult(w.urlAfterSubmit, w.donationTable);
    }
  }
}
