/** A value that may be absent: PHP's `false` or `null` results. */
module Wrappers {

  datatype Option<+T> = None | Some(value: T)

}
