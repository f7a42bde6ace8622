/** The optional value used wherever the source returns None or raises an
    exception that its caller turns into "no result". */
module Wrappers {

  datatype Option<+T> = None | Some(value: T)
}
