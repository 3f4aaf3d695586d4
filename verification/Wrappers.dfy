/** The stock optional value: a nullable column, an absent field, a query that finds no row. */
module Wrappers {
  datatype Option<+T> = None | Some(value: T)
}
