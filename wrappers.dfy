/** A value that may be absent: Python's `None` where a dict lookup with `.get`
    finds no key, or where a collaborator raised instead of returning. */
module Wrappers {

  datatype Option<+T> = None | Some(value: T)
}
