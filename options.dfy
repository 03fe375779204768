/** Optional values: Python's `None`-or-a-value results and failed steps. */
module Options {

  datatype Option<+T> = None | Some(value: T)
}
