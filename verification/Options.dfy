/** The usual optional value: Go's nil pointers and empty one-slot channels, C++'s std::optional. */
module Options {
  datatype Option<+T> = None | Some(value: T)
}
