/** Optional values, used for attributes a row may lack and for a relation
    that may have no relation metadata. */
module Wrappers {

  datatype Option<+T> = None | Some(value: T)
}
