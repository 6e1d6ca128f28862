/** The optional value used for environment variables, cookies and decoded tokens. */
module Wrappers {

  datatype Option<+T> = None | Some(value: T)
}
