/** Optional values, for event payloads that may be absent and for parsing. */
module Wrappers {

  datatype Option<+T> = None | Some(value: T)
}
