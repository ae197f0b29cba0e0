/** The optional-value datatype used for JavaScript's `null`, `undefined` and `NaN` outcomes. */
module Wrappers {

  datatype Option<+T> = None | Some(value: T)
}
