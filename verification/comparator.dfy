/**
 The value comparator: a single routine that dispatches on the class rank
 and, within a class, on the class's own order. It answers Less, Equal,
 Greater or Incomparable, mirroring -1, 0, 1 and null.
 */
module Comparator {
  import opened Values
  import opened Orderings

  /** The orders of objects and of binary values within their own class.
      They are left abstract: any pair of orders satisfying `Valid` may be
      plugged in, and every property proved below holds for all of them. */
  datatype ClassOrders = ClassOrders(
    objects: (map<string, Value>, map<string, Value>) -> Ordering,
    binaries: (seq<Byte>, seq<Byte>) -> Ordering)
  {
    /** Both orders are antisymmetric and transitive, and report Equal only
        for identical payloads. An object whose fields hold no Binary and no
        Infinity equals itself; any other object, like any binary value, may
        be Incomparable with itself. */
    ghost predicate Valid() {
      && FlipsWhenSwapped(objects) && TransitiveLess(objects)
      && EqualMeansIdentical(objects)
      && (forall m :: PlainFields(m) ==> objects(m, m) == Equal)
      && FlipsWhenSwapped(binaries) && TransitiveLess(binaries)
      && EqualMeansIdentical(binaries)
    }

    /** Any two objects whose field values hold no Binary and no Infinity
        are ordered. */
    ghost predicate PlainObjectsDefinite() {
      forall m, n :: PlainFields(m) && PlainFields(n) ==> objects(m, n) != Incomparable
    }
  }

  /** The least committal valid orders: a payload equals itself and no two
      distinct payloads are ordered. It shows that `Valid` can be met. */
  const Unordered := ClassOrders(
    (x: map<string, Value>, y: map<string, Value>) => if x == y then Equal else Incomparable,
    (x: seq<Byte>, y: seq<Byte>) => if x == y then Equal else Incomparable)

  lemma UnorderedIsValid()
    ensures Unordered.Valid()
  {
  }

  function CompareReals(x: real, y: real): (r: Ordering)
    ensures r != Incomparable
    ensures r == Less <==> x < y
    ensures r == Equal <==> x == y
  {
    if x < y then Less else if x == y then Equal else Greater
  }

  /** false < true */
  function CompareBools(x: bool, y: bool): (r: Ordering)
    ensures r != Incomparable
    ensures r == Less <==> !x && y
    ensures r == Equal <==> x == y
  {
    if x == y then Equal else if y then Less else Greater
  }

  /** Lexicographic order on strings, by code point; a proper prefix sorts
      first. */
  function CompareStrings(s: string, t: string): (r: Ordering)
    ensures r != Incomparable
  {
    if s == [] && t == [] then Equal
    else if s == [] then Less
    else if t == [] then Greater
    else if s[0] < t[0] then Less
    else if s[0] > t[0] then Greater
    else CompareStrings(s[1..], t[1..])
  }

  /** Compares two values: first by class rank, then within the class. */
  function Compare(ord: ClassOrders, a: Value, b: Value): (r: Ordering)
    decreases Size(a), 1
    ensures Rank(a) < Rank(b) ==> r == Less
    ensures Rank(a) > Rank(b) ==> r == Greater
    ensures r == Incomparable ==>
      Rank(a) == Rank(b) && (a.Array? || a.Object? || a.Binary? || a.Infinity?)
  {
    if Rank(a) < Rank(b) then Less
    else if Rank(a) > Rank(b) then Greater
    else match (a, b)
      case (Array(xs), Array(ys)) => CompareSeqs(ord, xs, ys)
      case (Boolean(x), Boolean(y)) => CompareBools(x, y)
      case (Null, Null) => Equal
      case (Number(x), Number(y)) => CompareReals(x, y)
      case (Object(x), Object(y)) => ord.objects(x, y)
      case (Binary(x), Binary(y)) => ord.binaries(x, y)
      case (Time(x), Time(y)) => CompareReals(x as real, y as real)
      case (String(x), String(y)) => CompareStrings(x, y)
      case (Infinity, Infinity) => Incomparable
  }

  /** Lexicographic order on arrays, element by element with `Compare`; a
      proper prefix sorts first, and an Incomparable element pair makes the
      whole comparison Incomparable. */
  function CompareSeqs(ord: ClassOrders, xs: seq<Value>, ys: seq<Value>): (r: Ordering)
    decreases SizeSeq(xs), 2
    ensures xs == [] ==> (r == Less <==> ys != [])
    ensures ys == [] ==> (r == Greater <==> xs != [])
    ensures r == Equal ==> |xs| == |ys|
  {
    if xs == [] && ys == [] then Equal
    else if xs == [] then Less
    else if ys == [] then Greater
    else
      var head := Compare(ord, xs[0], ys[0]);
      if head == Equal then CompareSeqs(ord, xs[1..], ys[1..]) else head
  }
}
