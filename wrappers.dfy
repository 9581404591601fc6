/** The "maybe absent" value used for the C++ null pointer and for the
    "no best candidate yet" state of the argmax scans. */
module Wrappers {

  datatype Option<+T> = None | Some(value: T)
}
