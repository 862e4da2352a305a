/** The one shared value type: a result that may be missing. */
module Common {
  datatype Option<+T> = None | Some(value: T)
}
