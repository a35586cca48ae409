/** The optional value Python expresses as `X | None`. */
module Wrappers {

  datatype Option<+T> = None | Some(value: T)

  /** The zero- or one-element sequence holding an optional value. */
  function ToSeq<T>(o: Option<T>): (s: seq<T>)
    ensures |s| <= 1
    ensures o.Some? <==> |s| == 1
    ensures o.Some? ==> s[0] == o.value
  {
    match o
    case None => []
    case Some(v) => [v]
  }
}
