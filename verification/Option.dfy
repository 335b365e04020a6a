/** The option type shared by the modules of the project. */
module Options {
  datatype Option<+T> = None | Some(value: T)
}
