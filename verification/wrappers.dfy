/** The optional-value datatype the rest of the model uses for "no result". */
module Wrappers {

  datatype Option<+T> = None | Some(value: T)
}
