/** Failure-carrying values and facts about finite sets and sequences, shared by the whole project. */
module Wrappers {

  /** A value that may be absent. */
  datatype Option<+T> = None | Some(value: T)

  /** A value, or the error that stood in its way. */
  datatype Result<+T, +E> = Ok(value: T) | Err(error: E)

  lemma {:induction false} SubsetSize<T>(a: set<T>, b: set<T>)
    requires a <= b
    ensures |a| <= |b|
  {
    if a != {} {
      var x :| x in a;
      SubsetSize(a - {x}, b - {x});
    }
  }

  // ------------------------------------------------- slices of concatenations

  lemma JoinIsAssociative<T>(x: seq<T>, y: seq<T>, z: seq<T>)
    ensures x + y + z == x + (y + z)
  {}

  lemma FrontOfJoin<T>(x: seq<T>, y: seq<T>)
    requires y != []
    ensures (x + y)[..|x + y| - 1] == x + y[..|y| - 1] && (x + y)[|x + y| - 1] == y[|y| - 1]
  {}

  lemma SliceBelow<T>(x: seq<T>, y: seq<T>, i: int, j: int)
    requires 0 <= i <= j <= |x|
    ensures (x + y)[i..j] == x[i..j]
  {}

  lemma SliceAbove<T>(x: seq<T>, y: seq<T>, i: int, j: int)
    requires 0 <= i <= j <= |y|
    ensures (x + y)[i + |x|..j + |x|] == y[i..j]
  {}

  lemma SlicesJoin<T>(s: seq<T>, i: int, j: int, k: int)
    requires 0 <= i <= j <= k <= |s|
    ensures s[i..k] == s[i..j] + s[j..k]
  {}
}
