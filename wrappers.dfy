/** Optional values, used where a decoder may find nothing to decode. */
module Wrappers {

  datatype Option<+T> = None | Some(value: T)

}
