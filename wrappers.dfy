/** A value that may be missing: used for lookups that fail and for
    operations that throw. */
module Wrappers {

  datatype Option<+T> = None | Some(value: T)

}
