/** The optional value used for spreadsheet cells that may be missing (pandas' NaN). */
module Wrappers {

  datatype Option<+T> = None | Some(value: T)
}
