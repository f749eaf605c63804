/** Optional values: JSON `null`/`undefined`, and JavaScript's NaN from parseInt. */
module Wrappers {

  datatype Option<+T> = None | Some(value: T)

}
