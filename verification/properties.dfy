/**
 Order-theoretic properties of the value comparator: antisymmetry,
 transitivity, reflexivity on values without Binary or Infinity, the
 meaning of Equal, totality on such values, and the lexicographic
 character of the array and string orders against independent reference
 definitions.
 */
module ComparatorProperties {
  import opened Values
  import opened Orderings
  import opened Comparator

  // ---------------------------------------------------------------------
  // Strings

  /** Reference definition: s sorts before t when they share their first k
      characters and then either s ends while t goes on, or s's next
      character has the smaller code point. */
  ghost predicate StringLessAt(s: string, t: string, k: int) {
    && 0 <= k <= |s| && k <= |t|
    && s[..k] == t[..k]
    && ((k == |s| && k < |t|) || (k < |s| && k < |t| && s[k] < t[k]))
  }

  ghost predicate StringLess(s: string, t: string) {
    exists k :: StringLessAt(s, t, k)
  }

  lemma {:induction false} CompareStringsEqual(s: string, t: string)
    ensures CompareStrings(s, t) == Equal <==> s == t
  {
    if s != [] && t != [] && s[0] == t[0] {
      CompareStringsEqual(s[1..], t[1..]);
      assert s == [s[0]] + s[1..];
      assert t == [t[0]] + t[1..];
    }
  }

  lemma {:induction false} CompareStringsAntisymmetric(s: string, t: string)
    ensures CompareStrings(s, t) == Flip(CompareStrings(t, s))
  {
    if s != [] && t != [] && s[0] == t[0] {
      CompareStringsAntisymmetric(s[1..], t[1..]);
    }
  }

  lemma {:induction false} CompareStringsLexicographic(s: string, t: string)
    ensures CompareStrings(s, t) == Less <==> StringLess(s, t)
  {
    if s == [] || t == [] {
      if CompareStrings(s, t) == Less {
        assert StringLessAt(s, t, 0);
      }
    } else if s[0] < t[0] {
      assert StringLessAt(s, t, 0);
    } else if s[0] > t[0] {
      assert !StringLess(s, t);
    } else {
      CompareStringsLexicographic(s[1..], t[1..]);
      if CompareStrings(s, t) == Less {
        var k :| StringLessAt(s[1..], t[1..], k);
        assert s[..k + 1] == [s[0]] + s[1..][..k];
        assert t[..k + 1] == [t[0]] + t[1..][..k];
        assert StringLessAt(s, t, k + 1);
      }
      if StringLess(s, t) {
        var k :| StringLessAt(s, t, k);
        if k == 0 {
          assert false;
        } else {
          assert s[1..][..k - 1] == s[..k][1..];
          assert t[1..][..k - 1] == t[..k][1..];
          assert StringLessAt(s[1..], t[1..], k - 1);
        }
      }
    }
  }

  lemma {:induction false} CompareStringsTransitive(s: string, t: string, u: string)
    requires CompareStrings(s, t) == Less && CompareStrings(t, u) == Less
    ensures CompareStrings(s, u) == Less
  {
    if s != [] && s[0] == t[0] && t[0] == u[0] {
      CompareStringsTransitive(s[1..], t[1..], u[1..]);
    }
  }

  /** A proper prefix sorts first. */
  lemma {:induction false} StringPrefixSortsFirst(s: string, t: string)
    requires |s| < |t| && s == t[..|s|]
    ensures CompareStrings(s, t) == Less
  {
    assert StringLessAt(s, t, |s|);
    CompareStringsLexicographic(s, t);
  }

  // ---------------------------------------------------------------------
  // Values and arrays

  /** Swapping the operands flips the outcome; in particular a pair is
      Incomparable in both directions or in neither. */
  lemma {:induction false} CompareAntisymmetric(ord: ClassOrders, a: Value, b: Value)
    requires ord.Valid()
    ensures Compare(ord, a, b) == Flip(Compare(ord, b, a))
    decreases Size(a), 1
  {
    if Rank(a) == Rank(b) {
      match (a, b)
      case (Array(xs), Array(ys)) => CompareSeqsAntisymmetric(ord, xs, ys);
      case (String(x), String(y)) => CompareStringsAntisymmetric(x, y);
      case _ =>
    }
  }

  lemma {:induction false} CompareSeqsAntisymmetric(ord: ClassOrders, xs: seq<Value>, ys: seq<Value>)
    requires ord.Valid()
    ensures CompareSeqs(ord, xs, ys) == Flip(CompareSeqs(ord, ys, xs))
    decreases SizeSeq(xs), 2
  {
    if xs != [] && ys != [] {
      CompareAntisymmetric(ord, xs[0], ys[0]);
      CompareSeqsAntisymmetric(ord, xs[1..], ys[1..]);
    }
  }

  /** A value is never strictly below or above itself. */
  lemma CompareSelfNeverStrict(ord: ClassOrders, a: Value)
    requires ord.Valid()
    ensures Compare(ord, a, a) == Equal || Compare(ord, a, a) == Incomparable
  {
    CompareAntisymmetric(ord, a, a);
  }

  /** Equal is only reported for identical values. */
  lemma {:induction false} CompareEqualMeansIdentical(ord: ClassOrders, a: Value, b: Value)
    requires ord.Valid()
    ensures Compare(ord, a, b) == Equal ==> a == b
    decreases Size(a), 1
  {
    if Rank(a) == Rank(b) {
      match (a, b)
      case (Array(xs), Array(ys)) => CompareSeqsEqualMeansIdentical(ord, xs, ys);
      case (String(x), String(y)) => CompareStringsEqual(x, y);
      case _ =>
    }
  }

  lemma {:induction false} CompareSeqsEqualMeansIdentical(ord: ClassOrders, xs: seq<Value>, ys: seq<Value>)
    requires ord.Valid()
    ensures CompareSeqs(ord, xs, ys) == Equal ==> xs == ys
    decreases SizeSeq(xs), 2
  {
    if xs != [] && ys != [] && Compare(ord, xs[0], ys[0]) == Equal {
      assert CompareSeqs(ord, xs, ys) == CompareSeqs(ord, xs[1..], ys[1..]);
      CompareEqualMeansIdentical(ord, xs[0], ys[0]);
      CompareSeqsEqualMeansIdentical(ord, xs[1..], ys[1..]);
      if CompareSeqs(ord, xs[1..], ys[1..]) == Equal {
        calc {
          xs;
          [xs[0]] + xs[1..];
          [ys[0]] + ys[1..];
          ys;
        }
      }
    }
  }

  /** A value holding no Binary and no Infinity equals itself. */
  lemma {:induction false} ComparePlainReflexive(ord: ClassOrders, a: Value)
    requires ord.Valid()
    requires Plain(a)
    ensures Compare(ord, a, a) == Equal
    decreases Size(a), 1
  {
    match a
    case Array(xs) => CompareSeqsPlainReflexive(ord, xs);
    case Object(m) => assert PlainFields(m);
    case String(s) => CompareStringsEqual(s, s);
    case _ =>
  }

  lemma {:induction false} CompareSeqsPlainReflexive(ord: ClassOrders, xs: seq<Value>)
    requires ord.Valid()
    requires PlainSeq(xs)
    ensures CompareSeqs(ord, xs, xs) == Equal
    decreases SizeSeq(xs), 2
  {
    if xs != [] {
      ComparePlainReflexive(ord, xs[0]);
      CompareSeqsPlainReflexive(ord, xs[1..]);
    }
  }

  /** For a plain value, Equal means exactly identity. */
  lemma ComparePlainEqualIff(ord: ClassOrders, a: Value, b: Value)
    requires ord.Valid()
    requires Plain(a)
    ensures Compare(ord, a, b) == Equal <==> a == b
  {
    CompareEqualMeansIdentical(ord, a, b);
    ComparePlainReflexive(ord, a);
  }

  /** Strict ordering is transitive, across classes and within them. */
  lemma {:induction false} CompareTransitive(ord: ClassOrders, a: Value, b: Value, c: Value)
    requires ord.Valid()
    requires Compare(ord, a, b) == Less && Compare(ord, b, c) == Less
    ensures Compare(ord, a, c) == Less
    decreases Size(a), 1
  {
    if Rank(a) == Rank(b) == Rank(c) {
      match (a, b, c)
      case (Array(xs), Array(ys), Array(zs)) => CompareSeqsTransitive(ord, xs, ys, zs);
      case (String(x), String(y), String(z)) => CompareStringsTransitive(x, y, z);
      case _ =>
    }
  }

  lemma {:induction false} CompareSeqsTransitive(ord: ClassOrders, xs: seq<Value>, ys: seq<Value>, zs: seq<Value>)
    requires ord.Valid()
    requires CompareSeqs(ord, xs, ys) == Less && CompareSeqs(ord, ys, zs) == Less
    ensures CompareSeqs(ord, xs, zs) == Less
    decreases SizeSeq(xs), 2
  {
    if xs != [] {
      CompareEqualMeansIdentical(ord, xs[0], ys[0]);
      CompareEqualMeansIdentical(ord, ys[0], zs[0]);
      var h1 := Compare(ord, xs[0], ys[0]);
      var h2 := Compare(ord, ys[0], zs[0]);
      if h1 == Less && h2 == Less {
        CompareTransitive(ord, xs[0], ys[0], zs[0]);
      } else if h1 == Equal && h2 == Equal {
        CompareSeqsTransitive(ord, xs[1..], ys[1..], zs[1..]);
      }
    }
  }

  /** When plain objects are totally ordered, any two plain values are
      ordered: Incomparable only ever stems from Binary values or Infinity. */
  lemma {:induction false} ComparePlainDefinite(ord: ClassOrders, a: Value, b: Value)
    requires ord.PlainObjectsDefinite()
    requires Plain(a) && Plain(b)
    ensures Compare(ord, a, b) != Incomparable
    decreases Size(a), 1
  {
    match (a, b)
    case (Array(xs), Array(ys)) => CompareSeqsPlainDefinite(ord, xs, ys);
    case _ =>
  }

  lemma {:induction false} CompareSeqsPlainDefinite(ord: ClassOrders, xs: seq<Value>, ys: seq<Value>)
    requires ord.PlainObjectsDefinite()
    requires PlainSeq(xs) && PlainSeq(ys)
    ensures CompareSeqs(ord, xs, ys) != Incomparable
    decreases SizeSeq(xs), 2
  {
    if xs != [] && ys != [] {
      ComparePlainDefinite(ord, xs[0], ys[0]);
      CompareSeqsPlainDefinite(ord, xs[1..], ys[1..]);
    }
  }

  /** Reference definition of the array order: the first k elements compare
      Equal, and then either xs ends while ys goes on, or the k-th elements
      compare Less. */
  ghost predicate AgreeUpTo(ord: ClassOrders, xs: seq<Value>, ys: seq<Value>, k: int)
    requires 0 <= k <= |xs| && k <= |ys|
  {
    forall i :: 0 <= i < k ==> Compare(ord, xs[i], ys[i]) == Equal
  }

  ghost predicate LexLessAt(ord: ClassOrders, xs: seq<Value>, ys: seq<Value>, k: int) {
    && 0 <= k <= |xs| && k <= |ys|
    && AgreeUpTo(ord, xs, ys, k)
    && ((k == |xs| && k < |ys|) || (k < |xs| && k < |ys| && Compare(ord, xs[k], ys[k]) == Less))
  }

  ghost predicate LexLess(ord: ClassOrders, xs: seq<Value>, ys: seq<Value>) {
    exists k :: LexLessAt(ord, xs, ys, k)
  }

  lemma {:induction false} CompareSeqsLexicographic(ord: ClassOrders, xs: seq<Value>, ys: seq<Value>)
    ensures CompareSeqs(ord, xs, ys) == Less <==> LexLess(ord, xs, ys)
    decreases |xs|
  {
    if xs == [] || ys == [] {
      if CompareSeqs(ord, xs, ys) == Less {
        assert LexLessAt(ord, xs, ys, 0);
      }
    } else {
      var h := Compare(ord, xs[0], ys[0]);
      CompareSeqsLexicographic(ord, xs[1..], ys[1..]);
      if CompareSeqs(ord, xs, ys) == Less {
        if h == Less {
          assert LexLessAt(ord, xs, ys, 0);
        } else {
          var k :| LexLessAt(ord, xs[1..], ys[1..], k);
          forall i | 0 <= i < k + 1
            ensures Compare(ord, xs[i], ys[i]) == Equal
          {
            if i > 0 {
              assert xs[i] == xs[1..][i - 1] && ys[i] == ys[1..][i - 1];
            }
          }
          assert LexLessAt(ord, xs, ys, k + 1);
        }
      }
      if LexLess(ord, xs, ys) {
        var k :| LexLessAt(ord, xs, ys, k);
        if k > 0 {
          assert h == Equal;
          forall i | 0 <= i < k - 1
            ensures Compare(ord, xs[1..][i], ys[1..][i]) == Equal
          {
            assert xs[1..][i] == xs[i + 1] && ys[1..][i] == ys[i + 1];
          }
          assert LexLessAt(ord, xs[1..], ys[1..], k - 1);
        }
      }
    }
  }

  /** A proper prefix sorts first, provided each of its elements compares
      Equal to itself. */
  lemma {:induction false} ArrayPrefixSortsFirst(ord: ClassOrders, xs: seq<Value>, ys: seq<Value>)
    requires forall k :: 0 <= k < |xs| ==> Compare(ord, xs[k], xs[k]) == Equal
    requires |xs| < |ys| && xs == ys[..|xs|]
    ensures Compare(ord, Array(xs), Array(ys)) == Less
  {
    if xs != [] {
      assert xs[1..] == ys[1..][..|xs| - 1];
      assert forall k :: 0 <= k < |xs| - 1 ==> xs[1..][k] == xs[k + 1];
      ArrayPrefixSortsFirst(ord, xs[1..], ys[1..]);
    }
  }

  /** In particular a proper prefix made of plain values sorts first. */
  lemma PlainArrayPrefixSortsFirst(ord: ClassOrders, xs: seq<Value>, ys: seq<Value>)
    requires ord.Valid()
    requires PlainSeq(xs)
    requires |xs| < |ys| && xs == ys[..|xs|]
    ensures Compare(ord, Array(xs), Array(ys)) == Less
  {
    forall k | 0 <= k < |xs|
      ensures Compare(ord, xs[k], xs[k]) == Equal
    {
      ComparePlainReflexive(ord, xs[k]);
    }
    ArrayPrefixSortsFirst(ord, xs, ys);
  }

  // ---------------------------------------------------------------------
  // Sorted sequences

  ghost predicate StrictlyAscending(ord: ClassOrders, s: seq<Value>) {
    forall i, j :: 0 <= i < j < |s| ==> Compare(ord, s[i], s[j]) == Less
  }

  /** A sequence whose every value is Less than the next one is strictly
      ascending. */
  lemma {:induction false} NeighboursAscendingChain(ord: ClassOrders, s: seq<Value>, i: nat, j: nat)
    requires ord.Valid()
    requires forall k :: 0 <= k < |s| - 1 ==> Compare(ord, s[k], s[k + 1]) == Less
    requires i < j < |s|
    ensures Compare(ord, s[i], s[j]) == Less
    decreases j - i
  {
    if i + 1 < j {
      NeighboursAscendingChain(ord, s, i + 1, j);
      CompareTransitive(ord, s[i], s[i + 1], s[j]);
    }
  }

  lemma NeighboursAscendingSorted(ord: ClassOrders, s: seq<Value>)
    requires ord.Valid()
    requires forall k :: 0 <= k < |s| - 1 ==> Compare(ord, s[k], s[k + 1]) == Less
    ensures StrictlyAscending(ord, s)
  {
    forall i, j | 0 <= i < j < |s|
      ensures Compare(ord, s[i], s[j]) == Less
    {
      NeighboursAscendingChain(ord, s, i, j);
    }
  }
}
