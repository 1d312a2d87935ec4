/** An optional value, standing for Python's `None` beside a real value. */
module Options {

  datatype Option<+T> = None | Some(value: T)
}
