/** Option and Result, used where the reports meet a missing value (a NaN
    cell after a left join) or an exception that aborts a report. */
module Wrappers {

  datatype Option<+T> = None | Some(value: T)

  datatype Result<+T, +E> = Success(value: T) | Failure(error: E)
}
