/** The optional value used wherever the C++ code uses a null pointer or a "not found" result. */
module Options {
  datatype Option<+T> = None | Some(value: T)
}
