/** The optional value used wherever the pipeline may have nothing to return. */
module Wrappers {

  datatype Option<+T> = None | Some(value: T)
}
