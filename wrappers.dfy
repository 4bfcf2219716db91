/** The optional value used where the source works with a null pointer or
    a value that may be absent. */
module Wrappers {

  datatype Option<+T> = None | Some(value: T)
}
