/** Rust's Option, as the source's parsers return it. */
module Wrappers {

  datatype Option<+T> = None | Some(value: T)

}
