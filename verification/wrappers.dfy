/** Option and Result, the two failure-carrying shapes the rest of the model uses
    for nullable columns, Go pointer fields and `(value, error)` returns. */
module Wrappers {

  /** A nullable value: Go's `*T`, `sql.NullString`, `sql.NullInt64`, `sql.NullTime`. */
  datatype Option<+T> = None | Some(value: T) {

    /** The value, or `default` when absent: how Go code reads a NULL column as its zero value. */
    function GetOr(default: T): T {
      match this
      case Some(v) => v
      case None => default
    }
  }

  /** A Go `(value, error)` pair where exactly one side is meaningful. */
  datatype Result<+T, +E> = Success(value: T) | Failure(error: E)
}
