/**
 * The dynamically typed values that reach SheetsServcie.add_row, so that its
 * isinstance checks can be stated, and the rows it sends to the sheet.
 */
module Values {
  import opened Calendar

  /** A Python value as add_row may receive it. */
  datatype Value =
    | NoneV
    | BoolV(b: bool)
    | IntV(i: int)
    | StrV(s: string)
    | DateV(d: Date)          // a datetime.date that is not a datetime
    | DateTimeV(t: DateTime)  // a datetime.datetime

  /** The cells of a sheet row, as one append request sends them. */
  type Row = seq<Value>

  /**
   * One row as add_row lays it out, before its cells are rendered: the clock when
   * add_row runs (datetime.now in UTC+8), then its arguments in the order of the
   * sheet's columns.
   */
  datatype SheetRow = SheetRow(now: DateTime, date: DateTime, purpose: string, fromAccount: string,
                               toAccount: string, amount: Value, certificateType: string,
                               certificateUpload: string, email: string, verification: Value,
                               certificateCollected: Value)

  /** The classes add_row checks against. */
  datatype PyType = IntType | DateTimeType | BoolType

  /**
   * isinstance(v, t). bool is a subclass of int, so True and False pass the int
   * check; a plain date is not a datetime, so it fails the datetime check.
   */
  predicate IsInstance(v: Value, t: PyType)
  {
    match t
    case IntType => v.IntV? || v.BoolV?
    case DateTimeType => v.DateTimeV?
    case BoolType => v.BoolV?
  }

  /** str(t), as it appears in add_row's error message. */
  function TypeName(t: PyType): string
  {
    match t
    case IntType => "<class 'int'>"
    case DateTimeType => "<class 'datetime.datetime'>"
    case BoolType => "<class 'bool'>"
  }

  /** Python's date and datetime objects always hold a real calendar day and clock time. */
  predicate WellFormed(v: Value)
  {
    match v
    case DateV(d) => Valid(d)
    case DateTimeV(t) => ValidDateTime(t)
    case _ => true
  }
}
