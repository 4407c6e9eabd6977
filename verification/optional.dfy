/** A value that may be missing. The logger uses it where a call has no
    answer: a raw value that names no level, or a call whose result the
    source leaves undefined. */
module Optional {

  datatype Option<T> = None | Some(value: T)
}
