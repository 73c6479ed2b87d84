/** Values that may be missing, and the two sequence helpers used throughout. */
module Wrappers {
  datatype Option<+T> = None | Some(value: T)

  /** One element or none. */
  function If<T>(c: bool, x: T): seq<T> { if c then [x] else [] }

  /** The first elements up to a limit; 0 or less is none. */
  function Limited<T>(s: seq<T>, limit: int): seq<T> {
    if 0 < limit < |s| then s[..limit] else s
  }
}
