/** Definitions shared by the models: optional values. */
module Prelude {
  datatype Option<+T> = None | Some(value: T)
}
