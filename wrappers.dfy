/** Optional values: a JavaScript property that may be `undefined`, a lookup that may miss. */
module Wrappers {

  datatype Option<+T> = None | Some(value: T)
}
