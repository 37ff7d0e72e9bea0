/** The optional value used wherever the source has `None` or a failing lookup. */
module Wrappers {
  datatype Option<+T> = None | Some(value: T)

  /** Python's `list.index`: the first position holding `x`, or None where Python raises. */
  function IndexOf<T(==)>(xs: seq<T>, x: T): (r: Option<nat>)
    ensures r.Some? <==> x in xs
    ensures r.Some? ==> r.value < |xs| && xs[r.value] == x && x !in xs[..r.value]
  {
    if xs == [] then None
    else if xs[0] == x then Some(0)
    else
      match IndexOf(xs[1..], x)
      case None => None
      case Some(i) => assert xs[1..][..i] == xs[1..i + 1]; Some(i + 1)
  }
}
