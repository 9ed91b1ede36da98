/** Optional values, results and the exceptions the accounting robot can raise. */
module Outcomes {

  datatype Option<+T> = None | Some(value: T)

  /** The Python exceptions that end a crawl. Each carries what the source would report. */
  datatype Failure =
    | TypeMismatch(argument: string, expected: string) // RuntimeError raised by add_row's type checks
    | MissingElement(locator: string)                   // an XPath/CSS lookup found nothing: IndexError or NoSuchElementException
    | NoMatch(pattern: string, text: string)            // re.findall(...)[0] on a text without a match: IndexError
    | BadDate(text: string)                             // datetime.strptime rejects the text: ValueError
    | BadInt(text: string)                              // int() rejects the text: ValueError
    | DateOverflow                                      // date arithmetic left years 1..9999: OverflowError
    | EmptyDownloadFolder                               // max() over an empty listing: ValueError
    | DownloadPending                                   // the newest file was still partial at the last listing observed
    | LoginFailed                                       // RuntimeError: still on the login page after submit
    | BadDateRange                                      // AssertionError: start_date > end_date

  datatype Result<+T> = Ok(value: T) | Err(error: Failure)

  datatype Outcome = Pass | Fail(error: Failure)
}
