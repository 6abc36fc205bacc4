/** Option, used for the paths on which the charting code raises (an empty
    `.iloc[0]`, a missing dictionary key, a chart with no scenario). */
module Wrappers {

  datatype Option<+T> = None | Some(value: T)
}
