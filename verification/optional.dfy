/** A value that may be absent, standing in for std::optional. */
module Optional {

  datatype Option<+T> = None | Some(value: T)
}
