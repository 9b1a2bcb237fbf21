/** The optional value used where the router's Ruby and JavaScript code use nil/undefined. */
module Wrappers {

  datatype Option<+T> = None | Some(value: T)
}
