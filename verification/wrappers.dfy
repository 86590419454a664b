/** An optional value: `None` where the source applies nothing. */
module Wrappers {

  datatype Option<+T> = None | Some(value: T)
}
