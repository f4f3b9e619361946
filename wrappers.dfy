/** Optional values, used for a missing settings key, an unknown action and "no rewrite". */
module Wrappers {

  datatype Option<+T> = None | Some(value: T)
}
