/** The optional value used wherever a Python call may yield nothing or fail. */
module Wrappers {

  datatype Option<+T> = None | Some(value: T)
}
