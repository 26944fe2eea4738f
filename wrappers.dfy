/** The optional value used where the source keeps a nullable pointer or a missing JSON member. */
module Wrappers {

  datatype Option<+T> = None | Some(value: T)
}
