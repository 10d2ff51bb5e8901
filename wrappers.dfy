/** Optional values: JavaScript's `undefined`/`null` results and a parser that may throw. */
module Wrappers {

  datatype Option<+T> = None | Some(value: T)
}
