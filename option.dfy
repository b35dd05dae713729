/** The outcome of a computation that the source aborts with an exception. */
module Optional {

  datatype Option<T> = None | Some(value: T)
}
