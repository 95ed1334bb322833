/** The optional value used for the header's lazily computed field. */
module Wrappers {

  /** `None` plays the role of a not-yet-computed (nil) slice. */
  datatype Option<+T> = None | Some(value: T)
}
