/** Sources/CollectionLibrary/Sequence.swift: `sum()` and `sum(_:)`, both a
    single `reduce` from `.zero`. Elements are Swift integers, modelled as
    unbounded `int`. */
module Sequences {
  import opened Arithmetic

  /** Swift's `reduce(initial, next)`: the accumulator starts at `init` and
      `f` folds in the elements from first to last. */
  function FoldLeft<T, A>(xs: seq<T>, init: A, f: (A, T) -> A): A
  {
    if xs == [] then init else f(FoldLeft(xs[..|xs| - 1], init, f), xs[|xs| - 1])
  }

  /** Folding one more element applies f once more. */
  lemma FoldLeftSnoc<T, A>(xs: seq<T>, x: T, init: A, f: (A, T) -> A)
    ensures FoldLeft(xs + [x], init, f) == f(FoldLeft(xs, init, f), x)
  {
    assert (xs + [x])[..|xs|] == xs;
  }

  /** Swift's `for x in xs { body }`: the loop hands each element to `body`
      in order. What the body does to the caller's state is modelled as a
      function from the old state and the element to the new state, so the
      loop computes a left fold. */
  method ForEach<E, S>(xs: seq<E>, body: (S, E) -> S, init: S) returns (s: S)
    ensures s == FoldLeft(xs, init, body)
  {
    s := init;
    var k := 0;
    while k < |xs|
      invariant 0 <= k <= |xs|
      invariant s == FoldLeft(xs[..k], init, body)
    {
      assert xs[..k + 1][..k] == xs[..k];
      s := body(s, xs[k]);
      k := k + 1;
    }
    assert xs[..|xs|] == xs;
  }

  function Add(a: int, b: int): int { a + b }

  /** `sum()`: `reduce(.zero, +)`. */
  function Sum(xs: seq<int>): int
  {
    FoldLeft(xs, 0, Add)
  }

  /** `sum(_ predicate:)`: `reduce(.zero) { $0 + predicate($1) }`. */
  function SumOf<T>(xs: seq<T>, f: T -> int): int
  {
    FoldLeft(xs, 0, (acc: int, x: T) => acc + f(x))
  }

  /** Swift's `map`: the sequence of `f` applied to each element, in order. */
  function Map<T, U>(xs: seq<T>, f: T -> U): (r: seq<U>)
    ensures |r| == |xs|
    ensures forall k :: 0 <= k < |xs| ==> r[k] == f(xs[k])
  {
    seq(|xs|, k requires 0 <= k < |xs| => f(xs[k]))
  }

  /** The sum of the empty sequence is `.zero`. */
  lemma SumEmpty()
    ensures Sum([]) == 0
  {
  }

  /** `reduce` folds left: appending one element adds it to the old total. */
  lemma SumSnoc(xs: seq<int>, x: int)
    ensures Sum(xs + [x]) == Sum(xs) + x
  {
    FoldLeftSnoc(xs, x, 0, Add);
  }

  /** The sum of a concatenation is the sum of the parts. */
  lemma {:induction false} SumConcat(a: seq<int>, b: seq<int>)
    ensures Sum(a + b) == Sum(a) + Sum(b)
    decreases |b|
  {
    if b == [] {
      assert a + b == a;
    } else {
      var b', x := b[..|b| - 1], b[|b| - 1];
      assert b == b' + [x];
      assert a + b == (a + b') + [x];
      SumConcat(a, b');
      SumSnoc(a + b', x);
      SumSnoc(b', x);
    }
  }

  /** Folding from the front: the first element plus the sum of the rest. */
  lemma SumCons(x: int, xs: seq<int>)
    ensures Sum([x] + xs) == x + Sum(xs)
  {
    SumConcat([x], xs);
    assert [x] == [] + [x];
    SumSnoc([], x);
  }

  /** Summing through a projection is summing the projected sequence. */
  lemma {:induction false} SumOfIsSumOfMap<T>(xs: seq<T>, f: T -> int)
    ensures SumOf(xs, f) == Sum(Map(xs, f))
    decreases |xs|
  {
    if xs != [] {
      var xs', x := xs[..|xs| - 1], xs[|xs| - 1];
      SumOfIsSumOfMap(xs', f);
      assert Map(xs, f) == Map(xs', f) + [f(x)];
      SumSnoc(Map(xs', f), f(x));
    }
  }

  /** Every element within [lo, hi] puts the sum within [n * lo, n * hi]. */
  lemma {:induction false} SumBounds(xs: seq<int>, lo: int, hi: int)
    requires forall k :: 0 <= k < |xs| ==> lo <= xs[k] <= hi
    ensures |xs| * lo <= Sum(xs) <= |xs| * hi
    decreases |xs|
  {
    if xs != [] {
      var xs', x := xs[..|xs| - 1], xs[|xs| - 1];
      assert xs == xs' + [x];
      SumBounds(xs', lo, hi);
      SumSnoc(xs', x);
      MulSucc(|xs'|, lo);
      MulSucc(|xs'|, hi);
    }
  }

  /** The users of the test suite, summed by age. */
  datatype User = User(name: string, age: int)

  function Age(u: User): int { u.age }

  /** `[1, 2, 3, 4, 5].sum()` is 15. */
  lemma SumExample()
    ensures Sum([1, 2, 3, 4, 5]) == 15
  {
    SumSnoc([1, 2, 3, 4], 5);
    assert [1, 2, 3, 4] + [5] == [1, 2, 3, 4, 5];
    SumSnoc([1, 2, 3], 4);
    assert [1, 2, 3] + [4] == [1, 2, 3, 4];
    SumSnoc([1, 2], 3);
    assert [1, 2] + [3] == [1, 2, 3];
    SumSnoc([1], 2);
    assert [1] + [2] == [1, 2];
    SumSnoc([], 1);
    assert [] + [1] == [1];
  }

  /** The ages 45 and 50 sum to 95. */
  lemma SumOfExample()
    ensures SumOf([User("Steve", 45), User("Tim", 50)], Age) == 95
  {
    var users := [User("Steve", 45), User("Tim", 50)];
    SumOfIsSumOfMap(users, Age);
    assert Map(users, Age) == [45, 50];
    SumSnoc([45], 50);
    assert [45] + [50] == [45, 50];
    SumSnoc([], 45);
    assert [] + [45] == [45];
  }
}
