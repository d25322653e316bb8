/** An optional value. It stands for a file that could not be opened and for
    the NaN that a division of 0.0 by zero yields. */
module Options {
  datatype Option<+T> = None | Some(value: T)
}
