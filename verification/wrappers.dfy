/** The optional value used wherever the widget holds something that may be
    unset: a parsed margin that came back NaN, a pointer origin not yet
    recorded, a trim window not yet derived, a timer handle not yet stored. */
module Wrappers {

  datatype Option<+T> = None | Some(value: T)
}
