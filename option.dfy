/** A value that may be JavaScript `undefined`: `None` stands for `undefined`, `Some(v)` for a defined `v`. */
module Optional {

  datatype Option<T> = None | Some(value: T)
}
