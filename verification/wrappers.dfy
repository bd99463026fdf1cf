/** The optional-value wrapper used for JSON fields that may be absent and
    for JavaScript's `undefined`. */
module Wrappers {

  datatype Option<+T> = None | Some(value: T)
}
