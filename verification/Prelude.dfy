/** Shared value types. */
module Prelude {

  /** An optional value: a nullable column, a missing key, an absent argument. */
  datatype Option<+T> = None | Some(value: T)

  /** A value, or the exception the original raises instead. */
  datatype Result<+T, +E> = Ok(value: T) | Err(error: E)

  /** Reading a file from `offset` on; past its end there is nothing. */
  function ReadFrom<T>(file: seq<T>, offset: nat): seq<T> {
    if offset >= |file| then [] else file[offset..]
  }

  /** A part is no larger than the whole. */
  lemma {:induction false} SubsetSize<T>(a: set<T>, b: set<T>)
    requires a <= b
    ensures |a| <= |b|
  {
    if a != {} {
      var x :| x in a;
      SubsetSize(a - {x}, b - {x});
    }
  }
}
