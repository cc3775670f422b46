/** The optional value that stands for a C pointer that may be NULL, and for
    an operation that may fail without saying why. */
module Wrappers {

  datatype Option<+T> = None | Some(value: T)
}
