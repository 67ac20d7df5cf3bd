/** An optional value, used for the cookie-session keys that may or may not be set. */
module Wrappers {

  datatype Option<+T> = None | Some(value: T)
}
