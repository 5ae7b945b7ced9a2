/** The optional value that JavaScript writes as `T | undefined`. */
module Options {

  datatype Option<+T> = None | Some(value: T)
}
