/** The optional value used where the C code returns NULL or -1 for "nothing". */
module Wrappers {

  datatype Option<+T> = None | Some(value: T)
}
