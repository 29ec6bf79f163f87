/** Optional values, used where the request handlers see "maybe a number". */
module Wrappers {

  datatype Option<+T> = None | Some(value: T)
}
