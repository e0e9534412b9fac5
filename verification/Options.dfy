/** Optional values, used where the program holds an empty handle, an ended cursor or a missing match. */
module Options {
  datatype Option<+T> = None | Some(value: T)
}
