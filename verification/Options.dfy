/** The value a C function returns through a pointer that may be NULL or left unset. */
module Options {
  datatype Option<+T> = None | Some(value: T)
}
