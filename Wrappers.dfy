/** The optional value used for cells that may be missing (pandas' NaN). */
module Wrappers {
  datatype Option<+T> = None | Some(value: T)
}
