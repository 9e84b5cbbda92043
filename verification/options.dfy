/** Optional values: Swift's `T?`, used for hit-test results and search results. */
module Options {

  datatype Option<+T> = None | Some(value: T)
}
