/**
 * What the robot does to the outside world, in the order it does it: browser
 * steps, Gmail searches, Drive uploads and Sheets appends. One journal is shared
 * by every service of a run, so the order between services can be stated.
 */
module Journal {
  import opened Outcomes
  import opened Values

  /** One Selenium step that changes what the browser shows. */
  datatype Action =
    | Launch(driverPath: string, downloadFolder: string)
    | Navigate(url: string)
    | Click(locator: string)
    | SendKeys(locator: string, text: string)
    | SelectValue(className: string, value: string)
    | QuitBrowser

  datatype Event =
    | Browse(action: Action)
    | Search(query: string)
    | Upload(folder: string, name: string, path: string, fileId: string)
    | Append(sheetId: string, range: string, row: SheetRow)

  /** The record kept by the account books: uploads and appended rows. */
  predicate IsLedgerEvent(e: Event)
  {
    e.Upload? || e.Append?
  }

  class Log {
    ghost var events: seq<Event>

    constructor()
      ensures events == []
    {
      events := [];
    }
  }

  /** The events a step performs before it ends, and how it ends. */
  datatype Effects = Effects(events: seq<Event>, outcome: Outcome)

  /** The ledger events of a history, in order. */
  function Ledger(events: seq<Event>): seq<Event>
  {
    if events == [] then []
    else Ledger(events[..|events| - 1]) + (if IsLedgerEvent(events[|events| - 1]) then [events[|events| - 1]] else [])
  }

  /** The rows appended in a history, in order. */
  function Rows(events: seq<Event>): seq<SheetRow>
  {
    if events == [] then []
    else Rows(events[..|events| - 1]) + (if events[|events| - 1].Append? then [events[|events| - 1].row] else [])
  }

  /**
   * The ledger keeps ledger events only, never more events than the history has,
   * and nothing of a history without uploads or appends; the rows are those of the
   * appends.
   */
  lemma {:induction false} LedgerFilters(events: seq<Event>)
    ensures var l := Ledger(events);
      |l| <= |events| && (forall i :: 0 <= i < |l| ==> IsLedgerEvent(l[i])) &&
      ((forall i :: 0 <= i < |events| ==> !IsLedgerEvent(events[i])) ==> l == [] && Rows(events) == [])
    decreases |events|
  {
    if events != [] {
      var init := events[..|events| - 1];
      LedgerFilters(init);
      assert forall i :: 0 <= i < |init| ==> init[i] == events[i];
    }
  }

  /** Both the ledger and the rows of a history split where the history does. */
  lemma {:induction false} LedgerAppend(a: seq<Event>, b: seq<Event>)
    ensures Ledger(a + b) == Ledger(a) + Ledger(b)
    ensures Rows(a + b) == Rows(a) + Rows(b)
    decreases |b|
  {
    if b == [] {
      assert a + b == a;
    } else {
      var b' := b[..|b| - 1];
      assert (a + b)[..|a + b| - 1] == a + b';
      assert (a + b)[|a + b| - 1] == b[|b| - 1];
      LedgerAppend(a, b');
    }
  }
}
