/** The optional value used wherever the application yields `undefined`,
    `NaN` or "nothing found". */
module Wrappers {
  datatype Option<+T> = None | Some(value: T)
}
