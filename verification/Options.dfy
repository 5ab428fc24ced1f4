/** A value that may be missing: undefined, null or None in the console's languages. */
module Options {

  datatype Option<T> = None | Some(value: T)
}
