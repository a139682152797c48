/** Option, used for macro expansions the preprocessor or compiler rejects. */
module Wrappers {

  datatype Option<+T> = None | Some(value: T)
}
