/** A value that may be missing; None also stands for an exception. */
module Options {
  datatype Option<+T> = None | Some(value: T)
}
