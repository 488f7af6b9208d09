/** The one helper type every component shares: Go's "value or nothing". */
module Wrappers {

  datatype Option<+T> = None | Some(value: T)
}
