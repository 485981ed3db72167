// A value that may be missing; it also stands for the null pointer.
module Options {
  datatype Option<+T> = None | Some(value: T)
}
