/** The values the C++ source may leave null (an input, a playlist, a window
    handle, a persisted string) are modelled with Option. */
module Wrappers {

  datatype Option<+T> = None | Some(value: T)
}
