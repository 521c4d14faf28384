/** Optional values: a sensor reading that has not arrived yet, a mode id missing from the catalog. */
module Wrappers {

  datatype Option<+T> = None | Some(value: T)
}
