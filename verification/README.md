# Value comparator of the RethinkDB clone/sync tool

This project models `compareValues`. It is the comparator the sync engine relies on to
put heterogeneous database values in the same order as the RethinkDB server's native
sort order. Its implementation (`lib/compareValues`) is not part of this model. The
comparator's behaviour is pinned down by its test, `test/compareValues.js`. The test holds
an ordered fixture of 24 values and checks `compareValues` on every ordered pair of them.
The model is a Dafny function that meets that contract, plus proofs that it does.

- `Values` (values.dfy): the closed `Value` datatype. It has one constructor per class
  (Array, Boolean, Null, Number, Object, Binary, Time, String) and a separate `Infinity`
  sentinel. `Rank` gives the fixed class ranking.
- `Orderings` (orderings.dfy): the outcomes `Less | Equal | Greater | Incomparable`.
  They stand for `-1`, `0`, `1` and `null`. The module also has `Flip` and `ToInt`, and
  the laws an abstract order must obey.
- `Comparator` (comparator.dfy): `Compare` and its within-class helpers. The order of
  objects among themselves and of binary values among themselves is left abstract. It is
  a `ClassOrders` parameter constrained by `ClassOrders.Valid`, and every property below
  holds for every valid choice.
- `ComparatorProperties` (properties.dfy): antisymmetry, transitivity and reflexivity.
  It also proves what `Equal` means, and that `Compare` is definite on values with no
  Binary and no Infinity when plain objects are totally ordered. Both the array order and the string order are proved equal to
  independent lexicographic reference definitions, and a proper prefix sorts first.
- `Fixture` (fixture.dfy): the test's 24-value sequence. It proves the sequence is
  strictly ascending and that `Compare` passes the test's double loop, with exactly the
  test's two exemptions.

Modelling decisions:
- Numbers are exact `real`s. Times are integer milliseconds since the epoch, like
  `new Date(ms)`. Strings are compared by code point, and binary values are byte
  sequences.
- `Infinity` ranks above every class, String included. `Compare(Infinity, Infinity)` is
  `Incomparable`: the test does not require it to equal itself.
- Two values of different classes are always ordered by their class rank and never yield
  `Incomparable`. So when a comparison involving a Binary value gives a sign, that sign
  follows the class ranking.
- Arrays compare element by element. The first element pair that is not `Equal` decides
  the result. If that pair is `Incomparable`, the whole array comparison is `Incomparable`.
- The test holds one object and one binary value, so it constrains neither order; the
  model keeps both abstract. An object whose field values hold no Binary and no Infinity
  equals itself; any other object may be Incomparable with itself, just as an array
  holding such a value is.

## Model

| member | source | states |
|---|---|---|
| Values.Rank | test/compareValues.js:10-35 | the class ranking Array < Boolean < Null < Number < Object < Binary < Time < String, with Infinity alone at the top |
| Comparator.Compare | test/compareValues.js:10-35 | a value of a lower-ranked class is Less than one of a higher-ranked class, and vice versa; Incomparable arises only within one class, and only for arrays, objects, binary values or Infinity; so Infinity is Greater than every other value, strings included |
| Comparator.CompareBools | test/compareValues.js:16-17 | false sorts before true, and equal flags compare Equal |
| Comparator.CompareReals | test/compareValues.js:19-25 | numbers (and time instants) are ordered by numeric value, whether integral or fractional, and are never Incomparable |
| Comparator.CompareStrings | test/compareValues.js:30-34 | comparing two strings always gives a definite outcome |
| Comparator.UnorderedIsValid | test/compareValues.js:26-27 | the requirements placed on the abstract object and binary orders can be met |
| Comparator.CompareSeqs | test/compareValues.js:12-15 | the empty array sorts before every non-empty array and only equals the empty array, and arrays that compare Equal have the same length |
| ComparatorProperties.CompareStringsEqual | test/compareValues.js:30-34 | two strings compare Equal exactly when they are the same string |
| ComparatorProperties.CompareStringsAntisymmetric | test/compareValues.js:30-34 | swapping two strings flips the outcome |
| ComparatorProperties.CompareStringsLexicographic | test/compareValues.js:30-34 | a string is Less than another exactly when, after a shared prefix, it either ends first or has the smaller code point |
| ComparatorProperties.CompareStringsTransitive | test/compareValues.js:30-34 | the string order is transitive |
| ComparatorProperties.StringPrefixSortsFirst | test/compareValues.js:30-31 | a proper prefix sorts before the longer string ('bar' < 'bar1') |
| ComparatorProperties.CompareAntisymmetric | test/compareValues.js:38-56 | comparing b with a gives the flip of comparing a with b, as the expected sign of i - j is negated when i and j swap; a pair is Incomparable both ways or neither way |
| ComparatorProperties.CompareSeqsAntisymmetric | test/compareValues.js:12-15 | the same antisymmetry for the element-by-element array order |
| ComparatorProperties.CompareSelfNeverStrict | test/compareValues.js:43-54 | no value is Less or Greater than itself; comparing a value with itself gives Equal or Incomparable |
| ComparatorProperties.CompareEqualMeansIdentical | test/compareValues.js:48 | Equal is only reported for identical values |
| ComparatorProperties.CompareSeqsEqualMeansIdentical | test/compareValues.js:12-15 | two arrays compare Equal only when they are the same sequence |
| ComparatorProperties.ComparePlainReflexive | test/compareValues.js:43-48 | a value with no Binary and no Infinity anywhere in it, inside arrays or object fields, compares Equal to itself |
| ComparatorProperties.CompareSeqsPlainReflexive | test/compareValues.js:12-15 | an array with no Binary and no Infinity inside compares Equal to itself |
| ComparatorProperties.ComparePlainEqualIff | test/compareValues.js:48 | for such a value, comparing Equal is exactly being identical |
| ComparatorProperties.CompareTransitive | test/compareValues.js:10-36 | Less is transitive, both across classes and within them |
| ComparatorProperties.CompareSeqsTransitive | test/compareValues.js:12-15 | Less is transitive on arrays |
| ComparatorProperties.ComparePlainDefinite | test/compareValues.js:51-54 | when plain objects are totally ordered, two values with no Binary and no Infinity are never Incomparable: null only ever comes from binary values or Infinity |
| ComparatorProperties.CompareSeqsPlainDefinite | test/compareValues.js:12-15 | the same for arrays of such values, again when plain objects are totally ordered |
| ComparatorProperties.CompareSeqsLexicographic | test/compareValues.js:12-15 | an array is Less than another exactly when, after a run of Equal elements, it either ends first or its next element is Less |
| ComparatorProperties.ArrayPrefixSortsFirst | test/compareValues.js:12-13 | a proper prefix sorts before the longer array ([] < [1,2,3]) whenever each element of the prefix compares Equal to itself, for any object and binary orders |
| ComparatorProperties.PlainArrayPrefixSortsFirst | test/compareValues.js:12-13 | in particular, a proper prefix made of values with no Binary and no Infinity sorts first |
| ComparatorProperties.NeighboursAscendingChain | test/compareValues.js:38-48 | in a sequence where each value is Less than the next, every earlier value is Less than every later one |
| ComparatorProperties.NeighboursAscendingSorted | test/compareValues.js:38-48 | a sequence whose neighbours ascend is strictly ascending as a whole |
| Fixture.ArraysAscending | test/compareValues.js:12-16 | [] < [1,2,3] < [3,2,1] < ['foo','bar'] < false |
| Fixture.ScalarsAscending | test/compareValues.js:16-30 | false < true < null < 1 < 1.25 < 1.5 < 2 < 10 < 20 < 1000.0 < the object < the binary value < the two dates in instant order < 'bar' |
| Fixture.StringsAscending | test/compareValues.js:30-35 | 'bar' < 'bar1' < 'baz' < 'foo' < 'z' < Infinity |
| Fixture.NeighboursAscending | test/compareValues.js:11-36 | each fixture value is Less than the next one |
| Fixture.OrderedIsStrictlyAscending | test/compareValues.js:11-36 | the fixture is strictly ascending under the comparator |
| Fixture.AgreesWithTest | test/compareValues.js:38-56 | every pair the test's double loop checks gets an accepted outcome; off the diagonal the outcome is always exactly the sign of i - j, so the binary exemption is needed only for the binary value against itself |

## Left out

- The comparison against a live RethinkDB server (test/compareValues.js:58-64): it runs queries on a server, so it is a foreign call.
- test/basic.js as a whole: its clone and sync integration tests need two live servers, a stubbed prompt and a stubbed logger. The clone and sync commands are not part of this model.
- The merge-diff engine, the ordered batch reader and the sync orchestrator: their source is not part of this model.
- Time-zone offsets of time values: the fixture's dates are plain instants.
- Floating-point rounding, NaN, `-Infinity` and `undefined`: numbers are exact reals, and Infinity is a constructor of its own rather than IEEE arithmetic, so `Number` cannot hold `-Infinity` and the model has no value for it.
- Comparator.ClassOrders: the order of objects among themselves and of binary values among themselves is a parameter. The fixture has one value of each class, so no key-sorting or byte-wise rule is fixed. Only objects whose field values hold no Binary and no Infinity are required to equal themselves.
- Comparator.CompareStrings: compares by Unicode code point. JavaScript's native string comparison uses UTF-16 code units, and the two differ only beyond the Basic Multilingual Plane.
- Comparator.CompareSeqs: an Incomparable element pair makes the whole array comparison Incomparable. How the implementation treats such arrays is not visible.
- ComparatorProperties.ArrayPrefixSortsFirst: holds only when every element of the prefix compares Equal to itself. In this model `[Infinity]` against `[Infinity, null]` is Incomparable, not Less, because the first element pair is Incomparable.
