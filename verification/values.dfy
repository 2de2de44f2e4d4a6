/**
 The dynamic value domain of the document database, as seen by the value
 comparator: one constructor per value class, plus a separate `Infinity`
 sentinel that sorts above every other value.
 */
module Values {

  newtype Byte = b: int | 0 <= b < 256

  /** A value read from a table. `Time` holds the instant in milliseconds
      since the epoch; `Infinity` is the non-finite number used as an
      upper sentinel. */
  datatype Value =
    | Array(items: seq<Value>)
    | Boolean(flag: bool)
    | Null
    | Number(num: real)
    | Object(fields: map<string, Value>)
    | Binary(bytes: seq<Byte>)
    | Time(epochMillis: int)
    | String(text: string)
    | Infinity

  /** Position of a value's class in the database's cross-class order:
      Array < Boolean < Null < Number < Object < Binary < Time < String,
      with the Infinity sentinel above them all. */
  function Rank(v: Value): (r: nat)
    ensures r <= 8
    ensures r == 8 <==> v.Infinity?
  {
    match v
    case Array(_) => 0
    case Boolean(_) => 1
    case Null => 2
    case Number(_) => 3
    case Object(_) => 4
    case Binary(_) => 5
    case Time(_) => 6
    case String(_) => 7
    case Infinity => 8
  }

  /** Size measure used to justify recursion through arrays. */
  function Size(v: Value): (n: nat)
    ensures n >= 1
  {
    match v
    case Array(items) => 1 + SizeSeq(items)
    case _ => 1
  }

  function SizeSeq(vs: seq<Value>): (n: nat)
    ensures n >= |vs|
    ensures vs != [] ==> n >= Size(vs[0]) && n > SizeSeq(vs[1..])
  {
    if vs == [] then 0 else Size(vs[0]) + SizeSeq(vs[1..])
  }

  /** A value whose comparison with itself is fully determined: it contains
      neither a Binary nor the Infinity sentinel, at any depth of nesting
      inside arrays or object fields. */
  predicate Plain(v: Value)
  {
    match v
    case Array(items) => forall i :: 0 <= i < |items| ==> Plain(items[i])
    case Object(fields) => forall k :: k in fields ==> Plain(fields[k])
    case Binary(_) => false
    case Infinity => false
    case _ => true
  }

  /** The elements of an array that is plain. */
  predicate PlainSeq(vs: seq<Value>) {
    Plain(Array(vs))
  }

  /** The field values of an object that is plain. */
  predicate PlainFields(fields: map<string, Value>) {
    Plain(Object(fields))
  }
}
