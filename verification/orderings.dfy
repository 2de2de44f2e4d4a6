/**
 The four outcomes of a comparison and the properties asked of an abstract
 within-class order.
 */
module Orderings {

  /** `Incomparable` is the comparator's `null`: the pair cannot be ordered. */
  datatype Ordering = Less | Equal | Greater | Incomparable

  /** The outcome of comparing the same pair the other way round. */
  function Flip(o: Ordering): (r: Ordering)
    ensures r == Less <==> o == Greater
    ensures r == Equal <==> o == Equal
    ensures r == Incomparable <==> o == Incomparable
  {
    match o
    case Less => Greater
    case Equal => Equal
    case Greater => Less
    case Incomparable => Incomparable
  }

  /** The number the comparator returns for a definite outcome. */
  function ToInt(o: Ordering): (n: int)
    requires o != Incomparable
    ensures -1 <= n <= 1
    ensures n < 0 <==> o == Less
    ensures n == 0 <==> o == Equal
    ensures n > 0 <==> o == Greater
  {
    match o
    case Less => -1
    case Equal => 0
    case Greater => 1
  }

  /** The sign of an integer, as the expected result of comparing the
      fixture's i-th value with its j-th is the sign of i - j. */
  function Sign(d: int): (n: int)
    ensures -1 <= n <= 1
    ensures n < 0 <==> d < 0
    ensures n == 0 <==> d == 0
  {
    if d < 0 then -1 else if d == 0 then 0 else 1
  }

  /** Comparing x with y is the flip of comparing y with x. (This is the
      comparator form of antisymmetry, not the relation law
      `R(x, y) && R(y, x) ==> x == y`; that one is `EqualMeansIdentical`.) */
  ghost predicate FlipsWhenSwapped<T(!new)>(cmp: (T, T) -> Ordering) {
    forall x, y :: cmp(x, y) == Flip(cmp(y, x))
  }

  ghost predicate TransitiveLess<T(!new)>(cmp: (T, T) -> Ordering) {
    forall x, y, z :: cmp(x, y) == Less && cmp(y, z) == Less ==> cmp(x, z) == Less
  }

  /** `Equal` is only ever reported for identical payloads. */
  ghost predicate EqualMeansIdentical<T(!new)>(cmp: (T, T) -> Ordering) {
    forall x, y :: cmp(x, y) == Equal ==> x == y
  }
}
