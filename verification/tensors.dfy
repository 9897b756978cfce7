/** Shapes and the all-or-nothing failure of a tensor runtime.

    A tensor operation either produces a whole result or raises (an index
    out of range, shapes that do not broadcast, tensors of different lengths
    concatenated); `None` stands for the raise.
 */
module Tensors {

  datatype Option<+T> = None | Some(value: T)

  /** A two-dimensional tensor: every row has the same width `w`. */
  predicate Rect<T>(m: seq<seq<T>>, w: nat) {
    forall i :: 0 <= i < |m| ==> |m[i]| == w
  }

  /** A three-dimensional tensor of shape (|m|, n, w). */
  predicate Cube<T>(m: seq<seq<seq<T>>>, n: nat, w: nat) {
    forall i :: 0 <= i < |m| ==> Rect(m[i], w) && |m[i]| == n
  }
}
