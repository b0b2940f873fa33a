/** Optional values: Go's nil-or-value results (a nil `error`, an unset cancellation cause). */
module Wrappers {

  datatype Option<+T> = None | Some(value: T)
}
