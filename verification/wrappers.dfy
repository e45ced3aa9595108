/** Optional values, used for the "no reply" and "access refused" outcomes. */
module Wrappers {

  datatype Option<+T> = None | Some(value: T)

}
