/** Optional values, used where the handler either produces an entry or skips it. */
module Wrappers {

  datatype Option<+T> = None | Some(value: T)

  /** The zero- or one-element sequence holding the value of `o`, if any. */
  function ToSeq<T>(o: Option<T>): (s: seq<T>)
    ensures |s| <= 1
  {
    match o
    case None => []
    case Some(v) => [v]
  }
}
