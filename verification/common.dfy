/** Shared result shapes and the error kinds the builders return. */
module Common {

  datatype Option<+T> = None | Some(value: T)

  datatype Result<+T, +E> = Success(value: T) | Failure(error: E)

  /** The errors a builder operation can report, one per `return` site of the source. */
  datatype Error =
    | BadCreationDate        // creation date-time does not parse with the date-time layout
    | BadExecutionDate       // execution/collection date does not parse with the date layout
    | InvalidEmitterIban     // originator IBAN fails the MOD 97-10 check
    | InvalidCreditorIban    // counterparty IBAN fails the MOD 97-10 check
    | TooManyDecimals        // amount rendering has more than two fraction digits
    | AmountNotConvertible   // the amount's cents do not fit a signed 64-bit integer
    | ControlSumNotConvertible // the group-header control sum's cents do not fit a signed 64-bit integer
    | CumulusOutOfRange      // the new control sum renders in fewer than 2 characters (a slice-bounds panic)
    | CumulusNotConvertible  // the new control sum's euro text is not a float literal

  /** The XML Schema instance namespace every document declares. */
  const XmlSchemaInstance: string := "http://www.w3.org/2001/XMLSchema-instance"

  /** The two date checks, each `time.Parse` with a fixed layout: "2006-01-02T15:04:05" for the
      creation date-time and "2006-01-02" for the execution (or collection) date. The calendar
      rules behind them live in Go's time package and are a parameter here. */
  datatype Layouts = Layouts(isDateTime: string -> bool, isDate: string -> bool)

  /** The state of the document after an operation, and the error it returned (None on success).
      Operations work on a document in place, so a late failure can leave part of the update behind. */
  datatype Outcome<D> = Outcome(doc: D, err: Option<Error>)
}
