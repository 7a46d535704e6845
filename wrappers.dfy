/** The optional value used for absent request fields and absent record fields. */
module Wrappers {

  datatype Option<+T> = None | Some(value: T)

}
