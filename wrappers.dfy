/** Optional values, standing for the source's nullable references and lookups that may miss. */
module Wrappers {
  datatype Option<+T> = None | Some(value: T)
}
