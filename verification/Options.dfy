/** Optional values and error returns. */
module Options {
  datatype Option<+T> = None | Some(value: T)
}
