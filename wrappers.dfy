/** The optional value used for lookups that may find nothing
    (`getAttribute` returning null, `JSON.parse` throwing, `indexOf` returning -1). */
module Wrappers {

  datatype Option<T> = None | Some(value: T)
}
