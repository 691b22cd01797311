/** The optional value used for Rust's `Option` and for the number-parsing oracle. */
module Options {

  datatype Option<+T> = None | Some(value: T)
}
