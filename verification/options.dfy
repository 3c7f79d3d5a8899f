/** A value that may be missing: JavaScript's `null` / `undefined` where the source allows it. */
module Options {

  datatype Option<T> = None | Some(value: T)
}
