/** The stock optional value. Here it also stands for a pointer that may be nil. */
module Options {
  datatype Option<+T> = None | Some(value: T)
}
