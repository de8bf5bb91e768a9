/** Failure-carrying datatypes and the errors shared by both analysis classes. */
module Wrappers {

  datatype Option<+T> = None | Some(value: T)

  datatype Result<+T, +E> = Success(value: T) | Failure(error: E)

  /** A check that either passes or fails with an error, returning no value. */
  datatype Outcome<+E> = Pass | Fail(error: E)

  /** The exceptions the scripts raise. Every one but the last is a
      `ValueError`; `Message` gives its text. The last is the `KeyError`
      pandas raises when a column is absent. */
  datatype Error =
    | MissingColumn(column: string)
    | NotOptimized(action: string)
    | NormalizedColumnsMissing
    | NotCalculated(action: string)
    | ColumnKeyError(key: string)

  predicate IsValueError(e: Error)
  {
    !e.ColumnKeyError?
  }

  /** The message a `ValueError` carries, as the scripts word it. */
  function Message(e: Error): string
    requires IsValueError(e)
  {
    match e
    case MissingColumn(c) => "Missing required column: " + c
    case NotOptimized(a) => "Run optimize() before " + a + " results."
    case NormalizedColumnsMissing => "Normalized columns are missing. Run normalize_columns() before visualizing metrics."
    case NotCalculated(a) => "Run calculate_performance() before " + a + "."
  }

  /** A missing-column message names its column: the text after the fixed
      prefix is the column, so two messages agree only for the same column. */
  lemma MissingColumnMessageNamesColumn(c: string, d: string)
    ensures var prefix := "Missing required column: ";
      && Message(MissingColumn(c))[|prefix|..] == c
      && (Message(MissingColumn(c)) == Message(MissingColumn(d)) ==> c == d)
  {
  }
}
