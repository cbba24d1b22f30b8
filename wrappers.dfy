/** The absent-or-present value used for the source's null returns and thrown failures. */
module Wrappers {

  datatype Option<+T> = None | Some(value: T)
}
