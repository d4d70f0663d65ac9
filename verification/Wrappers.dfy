/** The one optional-value type the whole model shares (Rust's `Option`). */
module Wrappers {

  datatype Option<+T> = None | Some(value: T)
}
