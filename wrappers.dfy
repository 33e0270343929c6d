/** Optional values: the model's stand-in for `undefined` and for missing results. */
module Wrappers {

  datatype Option<+T> = None | Some(value: T)

}
