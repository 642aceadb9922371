/** Optional values: the `null`-or-value cells of the component. */
module Wrappers {

  datatype Option<+T> = None | Some(value: T)

}
