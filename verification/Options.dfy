/** The optional value every module here shares. */
module Options {
  datatype Option<+T> = None | Some(value: T)
}
