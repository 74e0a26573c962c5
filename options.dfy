/** The optional value used for JavaScript's `undefined` and for a failed regular-expression match. */
module Options {
  datatype Option<T> = None | Some(value: T)
}
