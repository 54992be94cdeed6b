/** The Option type that stands for Python's `str or None` results. */
module Wrappers {

  datatype Option<+T> = None | Some(value: T)
}
