/** Optional values, as the source's `Option`. */
module Results {
  datatype Option<+T> = None | Some(value: T)
}
