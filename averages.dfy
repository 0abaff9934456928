/** The `BinaryInteger` overloads of `average()` and `average(_:)` in
    Sources/CollectionLibrary/Collection.swift: the sum divided by the count
    with Swift's integer division, which truncates toward zero. */
module Averages {
  import opened Arithmetic
  import opened Sequences

  /** Swift's integer `a / b`: the quotient rounded toward zero, so the
      remainder `a - b * q` is smaller than |b| and has the sign of a. */
  function TruncDiv(a: int, b: int): (q: int)
    requires b != 0
    ensures Abs(a - b * q) < Abs(b)
    ensures 0 <= a ==> 0 <= a - b * q
    ensures a <= 0 ==> a - b * q <= 0
  {
    var q0 := Abs(a) / Abs(b);
    NatDiv(Abs(a), Abs(b));
    MulSigned(b, q0);
    if (a < 0) == (b < 0) then q0 else -q0
  }

  /** `average()`: `.zero` for an empty collection, otherwise
      `sum() / Element(count)`, which truncates the mean toward zero. */
  function Average(xs: seq<int>): (r: int)
    ensures xs == [] ==> r == 0
    ensures xs != [] && 0 <= Sum(xs) ==> |xs| * r <= Sum(xs) < |xs| * (r + 1)
    ensures xs != [] && Sum(xs) <= 0 ==> |xs| * (r - 1) < Sum(xs) <= |xs| * r
  {
    if xs == [] then 0 else TruncDiv(Sum(xs), |xs|)
  }

  /** `average(_ predicate:)` with an integer result: `sum(predicate) /
      T(count)`. There is no `isEmpty` guard, and Swift traps on division by
      zero, so the collection must not be empty. */
  function AverageOf<T>(xs: seq<T>, f: T -> int): (r: int)
    requires xs != []
    ensures 0 <= SumOf(xs, f) ==> |xs| * r <= SumOf(xs, f) < |xs| * (r + 1)
    ensures SumOf(xs, f) <= 0 ==> |xs| * (r - 1) < SumOf(xs, f) <= |xs| * r
  {
    TruncDiv(SumOf(xs, f), |xs|)
  }

  /** A quotient truncated toward zero lies between the bounds of the mean:
      n * lo <= s <= n * hi gives lo <= s / n <= hi. */
  lemma TruncDivWithin(s: int, n: int, lo: int, hi: int)
    requires n > 0
    requires n * lo <= s <= n * hi
    ensures lo <= TruncDiv(s, n) <= hi
  {
    var q := TruncDiv(s, n);
    MulStrict(n, q, hi);
    MulStrict(n, lo, q);
  }

  /** The average never leaves the range of the elements. */
  lemma AverageWithin(xs: seq<int>, lo: int, hi: int)
    requires xs != []
    requires forall k :: 0 <= k < |xs| ==> lo <= xs[k] <= hi
    ensures lo <= Average(xs) <= hi
  {
    SumBounds(xs, lo, hi);
    TruncDivWithin(Sum(xs), |xs|, lo, hi);
  }

  /** Averaging through a projection is averaging the projected sequence. */
  lemma AverageOfIsAverageOfMap<T>(xs: seq<T>, f: T -> int)
    requires xs != []
    ensures AverageOf(xs, f) == Average(Map(xs, f))
  {
    SumOfIsSumOfMap(xs, f);
  }

  /** The average of `[1, 2, 3, 4, 5]` is 3. */
  lemma AverageExample()
    ensures Average([1, 2, 3, 4, 5]) == 3
  {
    SumExample();
  }

  /** The ages 45 and 50 average to 47: 95 / 2, truncated. */
  lemma AverageOfExample()
    ensures AverageOf([User("Steve", 45), User("Tim", 50)], Age) == 47
  {
    SumOfExample();
  }
}
