/** The optional value used throughout the model for `null`, `undefined` and thrown errors. */
module Options {
  datatype Option<+T> = None | Some(value: T)
}
