/** Small optional-value wrapper shared by the other modules. */
module Wrappers {

  /** A value that may be absent: `null`, `undefined` or an unset property on the JavaScript side. */
  datatype Option<+T> = None | Some(value: T)
}
