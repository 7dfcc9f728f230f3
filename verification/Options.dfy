/** Optional values, used for the source's `Option` and for error returns whose message does not matter. */
module Options {
  datatype Option<+T> = None | Some(value: T)
}
