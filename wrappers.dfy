/** Option type for the fields the front end treats as possibly absent. */
module Wrappers {
  datatype Option<+T> = None | Some(value: T)
}
