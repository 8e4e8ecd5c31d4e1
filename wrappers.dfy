/** The optional value used where the source stores or returns `None`. */
module Wrappers {

  datatype Option<+T> = None | Some(value: T)

}
