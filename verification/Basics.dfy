/** Names shared by all parts of the model. */
module Basics {

  /** A stable 64-bit key of a group. */
  type Key = nat

  datatype Option<T> = None | Some(value: T)

  /** s with x inserted at index at. */
  function InsertedAt<T>(s: seq<T>, at: nat, x: T): (r: seq<T>)
    requires at <= |s|
    ensures |r| == |s| + 1
  {
    s[..at] + [x] + s[at..]
  }

  /** s without the n elements at index at. */
  function RemovedAt<T>(s: seq<T>, at: nat, n: nat): (r: seq<T>)
    requires at + n <= |s|
    ensures |r| == |s| - n
  {
    s[..at] + s[at + n..]
  }
}
