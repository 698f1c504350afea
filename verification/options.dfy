/** The conventional optional value, shared by the runner and the SQL builders. */
module Options {
  datatype Option<+T> = None | Some(value: T)
}
