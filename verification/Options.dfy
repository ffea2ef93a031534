/** The absent-or-present value every module uses for a nullable column or an optional argument. */
module Options {
  datatype Option<+T> = None | Some(value: T) {

    /** The value, or `other` when it is absent: the `??` of the original. */
    function OrElse(other: T): T {
      if Some? then value else other
    }
  }

  /** The first position of `x`. */
  function IndexOf<T(==)>(s: seq<T>, x: T): (i: Option<nat>)
    ensures i.Some? <==> x in s
    ensures i.Some? ==> i.value < |s| && s[i.value] == x
  {
    if s == [] then None
    else if s[0] == x then Some(0)
    else
      var rest := IndexOf(s[1..], x);
      if rest.Some? then Some(rest.value + 1) else None
  }
}
