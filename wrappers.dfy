/** The optional value used wherever the source works with `None` or with a call that may raise. */
module Wrappers {

  datatype Option<+T> = None | Some(value: T)
}
