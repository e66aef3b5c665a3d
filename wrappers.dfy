/** Optional values, used for absent fields, failed parses and foreign calls that throw. */
module Wrappers {

  datatype Option<+T> = None | Some(value: T)
}
