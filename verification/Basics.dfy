/** Small definitions shared by the component models. */
module Basics {

  datatype Option<+T> = None | Some(value: T)

  function MinReal(x: real, y: real): (r: real)
    ensures r <= x && r <= y && (r == x || r == y)
  {
    if x <= y then x else y
  }

  function MaxReal(x: real, y: real): (r: real)
    ensures r >= x && r >= y && (r == x || r == y)
  {
    if x >= y then x else y
  }

  /** Where a search loop stops: at the first element it wants, or past the end. */
  function FirstIndex<T>(s: seq<T>, want: T -> bool): (k: nat)
    ensures k <= |s|
    ensures k < |s| ==> want(s[k])
    ensures forall i | 0 <= i < k :: !want(s[i])
  {
    if s == [] || want(s[0]) then 0 else 1 + FirstIndex(s[1..], want)
  }

  lemma GainPositive(rate: real, dt: real)
    requires rate > 0.0 && dt > 0.0
    ensures rate * dt > 0.0
  {
  }

  lemma ScaleMonotone(rate: real, x: real, y: real)
    requires rate >= 0.0 && x <= y
    ensures rate * x <= rate * y
  {
  }
}
