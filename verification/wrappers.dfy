/** Optional values, used for "no transition" and "no follow-up event". */
module Wrappers {

  datatype Option<+T> = None | Some(value: T)
}
