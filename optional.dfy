/** The usual optional-value datatype. */
module Optional {

  datatype Option<T> = None | Some(value: T)
}
