/** Optional values: JavaScript's `undefined` for optional arguments and metadata fields. */
module Wrappers {

  datatype Option<+T> = None | Some(value: T)
}
