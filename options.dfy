/** The optional value that Rust's `Option` stands for in the token record. */
module Options {

  datatype Option<+T> = None | Some(value: T)
}
