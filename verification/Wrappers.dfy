/** What modules of every part share. */
module Wrappers {
  /** A value that may be absent. */
  datatype Option<+T> = None | Some(value: T)

  function SaturatingSub(a: nat, b: nat): (d: nat)
    ensures d <= a
  {
    if a < b then 0 else a - b
  }
}
