/** The optional value used where the script works with `null` or "nothing yet". */
module Options {
  datatype Option<+T> = None | Some(value: T)
}
