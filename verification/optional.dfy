/** An optional value: the model's stand-in for JavaScript's `null` and
    for arguments a caller may leave out. */
module Optional {

  datatype Option<T> = None | Some(value: T)
}
