/** Nullable values: a column or key that may hold `None`. */
module Wrappers {

  datatype Option<+T> = None | Some(value: T)
}
