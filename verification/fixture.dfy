/**
 The ordered fixture of the comparator's test, and the proof that the
 comparator agrees with it on every pair the test checks.
 */
module Fixture {
  import opened Values
  import opened Orderings
  import opened Comparator
  import opened ComparatorProperties

  /** Twenty-four values in ascending order, one or more of every class,
      ending with the Infinity sentinel. The binary value holds the bytes
      of the text "test". */
  const Ordered: seq<Value> := [
    Array([]),
    Array([Number(1.0), Number(2.0), Number(3.0)]),
    Array([Number(3.0), Number(2.0), Number(1.0)]),
    Array([String("foo"), String("bar")]),
    Boolean(false),
    Boolean(true),
    Null,
    Number(1.0),
    Number(1.25),
    Number(1.5),
    Number(2.0),
    Number(10.0),
    Number(20.0),
    Number(1000.0),
    Object(map["foo" := Number(1.0), "bar" := Number(2.0)]),
    Binary([116, 101, 115, 116]),
    Time(1000000000000),
    Time(1400000000000),
    String("bar"),
    String("bar1"),
    String("baz"),
    String("foo"),
    String("z"),
    Infinity
  ]

  /** What the test accepts as the outcome of comparing the i-th fixture
      value a with the j-th value b: the pair Infinity/Infinity is skipped,
      an Incomparable outcome is tolerated when either side is binary, and
      otherwise the outcome must be the sign of i - j. */
  predicate TestAccepts(a: Value, b: Value, i: int, j: int, r: Ordering) {
    || (a.Infinity? && b.Infinity?)
    || (r == Incomparable && (a.Binary? || b.Binary?))
    || (r != Incomparable && ToInt(r) == Sign(i - j))
  }

  /** The arrays [] < [1,2,3] < [3,2,1] < ['foo','bar'] ascend, and the last
      of them is below false. */
  lemma ArraysAscending(ord: ClassOrders, i: nat)
    requires i < 4
    ensures Compare(ord, Ordered[i], Ordered[i + 1]) == Less
  {
    if i == 1 {
      assert Compare(ord, Number(1.0), Number(3.0)) == Less;
    } else if i == 2 {
      assert Compare(ord, Number(3.0), String("foo")) == Less;
    }
  }

  /** Booleans, null, numbers, the object, the binary value and the times
      ascend, and the last time is below 'bar'. */
  lemma ScalarsAscending(ord: ClassOrders, i: nat)
    requires 4 <= i < 18
    ensures Compare(ord, Ordered[i], Ordered[i + 1]) == Less
  {
  }

  /** 'bar' < 'bar1' < 'baz' < 'foo' < 'z' < Infinity. */
  lemma StringsAscending(ord: ClassOrders, i: nat)
    requires 18 <= i < 23
    ensures Compare(ord, Ordered[i], Ordered[i + 1]) == Less
  {
    if i == 18 {
      StringPrefixSortsFirst("bar", "bar1");
    } else if i == 19 {
      assert CompareStrings("bar1", "baz") == CompareStrings("r1", "z");
    } else if i == 20 {
      assert "baz"[0] < "foo"[0];
    }
  }

  /** Every value is strictly below the next one. */
  lemma NeighboursAscending(ord: ClassOrders, i: nat)
    requires i + 1 < |Ordered|
    ensures Compare(ord, Ordered[i], Ordered[i + 1]) == Less
  {
    if i < 4 {
      ArraysAscending(ord, i);
    } else if i < 18 {
      ScalarsAscending(ord, i);
    } else {
      StringsAscending(ord, i);
    }
  }

  lemma OrderedIsStrictlyAscending(ord: ClassOrders)
    requires ord.Valid()
    ensures StrictlyAscending(ord, Ordered)
  {
    forall k | 0 <= k < |Ordered| - 1
      ensures Compare(ord, Ordered[k], Ordered[k + 1]) == Less
    {
      NeighboursAscending(ord, k);
    }
    NeighboursAscendingSorted(ord, Ordered);
  }

  /** The comparator passes the test's double loop: every pair of positions
      it checks yields an accepted outcome. Off the diagonal the outcome is
      always the sign of i - j, so the binary tolerance is only ever used
      for the binary value against itself. */
  lemma AgreesWithTest(ord: ClassOrders, i: nat, j: nat)
    requires ord.Valid()
    requires i < |Ordered| && j < |Ordered|
    ensures TestAccepts(Ordered[i], Ordered[j], i, j, Compare(ord, Ordered[i], Ordered[j]))
    ensures i != j ==>
      Compare(ord, Ordered[i], Ordered[j]) != Incomparable &&
      ToInt(Compare(ord, Ordered[i], Ordered[j])) == Sign(i - j)
  {
    var a, b := Ordered[i], Ordered[j];
    OrderedIsStrictlyAscending(ord);
    if j < i {
      CompareAntisymmetric(ord, a, b);
    } else if i == j == 15 {
      CompareSelfNeverStrict(ord, a);
    } else if i == j != 23 {
      ComparePlainReflexive(ord, a);
    }
  }
}
