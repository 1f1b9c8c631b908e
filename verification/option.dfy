/** An optional result: the host's `None`, or an operation the host aborts with
    an exception. */
module Optional {
  /** `None` stands for the host's `None` or for the raised exception,
      `Some(v)` for the returned value. */
  datatype Option<T> = None | Some(value: T)
}
