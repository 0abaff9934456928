/** The position model shared by the extensions of Swift's `Collection` in
    Sources/CollectionLibrary/Collection.swift, and three of them:
    `indexedElements` (both forms) and `distance(to:)`.

    A collection's indices are consecutive integers, as for an Array and its
    slices: an Array starts at index 0, and a slice keeps the indices of the
    collection it was cut from, so `[100, 200, 300, 400, 500].dropFirst(2)`
    starts at index 2. */
module Collections {
  import opened Arithmetic
  import opened Options
  import opened Sequences

  /** A collection: its `startIndex` and its elements in order. `endIndex` is
      one past the last position. */
  datatype Collection<T> = Collection(startIndex: int, elements: seq<T>) {

    function EndIndex(): int { startIndex + |elements| }

    function Count(): nat { |elements| }

    predicate IsIndex(i: int) { startIndex <= i < EndIndex() }

    /** `self[i]`. */
    function At(i: int): T
      requires IsIndex(i)
    {
      elements[i - startIndex]
    }

    /** `indices`: the range `startIndex..<endIndex`. */
    function Indices(): seq<int>
    {
      Range(startIndex, EndIndex())
    }

    /** `self[lo..<hi]`: a slice keeps the indices of this collection. */
    function Slice(lo: int, hi: int): (s: Collection<T>)
      requires startIndex <= lo <= hi <= EndIndex()
      ensures s.startIndex == lo && s.EndIndex() == hi
      ensures forall i :: lo <= i < hi ==> s.IsIndex(i) && s.At(i) == At(i)
    {
      Collection(lo, elements[lo - startIndex..hi - startIndex])
    }

    /** `dropFirst(k)`: the slice from the index k steps after `startIndex`,
        clamped at `endIndex`, to `endIndex`. */
    function DropFirst(k: nat): (s: Collection<T>)
      ensures s.startIndex == startIndex + Min(k, Count())
      ensures s.EndIndex() == EndIndex()
      ensures s.elements == elements[Min(k, Count())..]
    {
      Slice(IndexOffsetBy(startIndex, k, EndIndex()).GetOr(EndIndex()), EndIndex())
    }
  }

  /** `index(i, offsetBy: n, limitedBy: limit)` for a forward step n >= 0:
      nil when `limit` lies ahead of i but fewer than n steps away. */
  function IndexOffsetBy(i: int, n: nat, limit: int): (r: Option<int>)
    ensures r.Some? ==> r.value == i + n
    ensures i <= limit ==> (r.Some? <==> i + n <= limit)
  {
    if 0 <= limit - i < n then None else Some(i + n)
  }

  /** `formIndex(&i, offsetBy: n, limitedBy: limit)`: whether the full step
      was taken, and the new index, which is `limit` when it was not. */
  function FormIndex(i: int, n: nat, limit: int): (r: (bool, int))
    ensures i <= limit ==> i <= r.1 <= limit && r.1 == Min(i + n, limit)
    ensures i <= limit ==> (r.0 <==> i + n <= limit)
    ensures n >= 1 && i < limit ==> i < r.1
  {
    match IndexOffsetBy(i, n, limit)
    case Some(j) => (true, j)
    case None => (false, limit)
  }

  /** The integers lo, lo + 1, ..., hi - 1. */
  function Range(lo: int, hi: int): (r: seq<int>)
    ensures |r| == if lo <= hi then hi - lo else 0
    ensures forall k :: 0 <= k < |r| ==> r[k] == lo + k
    decreases hi - lo
  {
    if lo >= hi then [] else [lo] + Range(lo + 1, hi)
  }

  /** Swift's `zip`: pairs of equal positions, as long as the shorter side. */
  function Zip<A, B>(a: seq<A>, b: seq<B>): (r: seq<(A, B)>)
    ensures |r| == Min(|a|, |b|)
    ensures forall k :: 0 <= k < |r| ==> r[k] == (a[k], b[k])
  {
    if a == [] || b == [] then [] else [(a[0], b[0])] + Zip(a[1..], b[1..])
  }

  /** The `indexedElements` property: `zip(indices, self)`. */
  function IndexedElements<T>(c: Collection<T>): (r: seq<(int, T)>)
    ensures |r| == c.Count()
    ensures forall k :: 0 <= k < |r| ==>
      r[k].0 == c.startIndex + k && c.IsIndex(r[k].0) && r[k].1 == c.At(r[k].0)
  {
    Zip(c.Indices(), c.elements)
  }

  /** `indexedElements(body:)`: `for element in indexedElements { body(element) }`,
      handing each (index, element) pair to `body` in order, so the state the
      closure threads through is a left fold over `IndexedElements(c)`. */
  method ForEachIndexed<T, S>(c: Collection<T>, body: (S, (int, T)) -> S, init: S) returns (s: S)
    ensures s == FoldLeft(IndexedElements(c), init, body)
  {
    s := ForEach(IndexedElements(c), body, init);
  }

  /** `distance(from: i, to: j)` of a forward collection: the number of
      `index(after:)` steps from i to j. */
  function Distance<T>(c: Collection<T>, i: int, j: int): (d: nat)
    requires c.startIndex <= i <= j <= c.EndIndex()
    ensures i + d == j
    decreases j - i
  {
    if i == j then 0 else 1 + Distance(c, i + 1, j)
  }

  /** `distance(to:)`: the distance from `startIndex`. */
  function DistanceTo<T>(c: Collection<T>, i: int): (d: nat)
    requires c.startIndex <= i <= c.EndIndex()
    ensures c.startIndex + d == i
    ensures d == 0 <==> i == c.startIndex
    ensures i < c.EndIndex() ==> c.At(i) == c.elements[d]
  {
    Distance(c, c.startIndex, i)
  }

  /** `firstIndex(of:)`, searching from index `from` on. */
  function FirstIndexOf<T(==)>(c: Collection<T>, x: T, from: int): (r: Option<int>)
    requires c.startIndex <= from <= c.EndIndex()
    ensures r.Some? ==> from <= r.value < c.EndIndex() && c.At(r.value) == x
    ensures r.Some? ==> forall i :: from <= i < r.value ==> c.At(i) != x
    ensures r.None? ==> forall i :: from <= i < c.EndIndex() ==> c.At(i) != x
    decreases c.EndIndex() - from
  {
    if from == c.EndIndex() then None
    else if c.At(from) == x then Some(from)
    else FirstIndexOf(c, x, from + 1)
  }

  /** Distance grows strictly as the position advances. */
  lemma DistanceToIncreasing<T>(c: Collection<T>, i: int, j: int)
    requires c.startIndex <= i < j <= c.EndIndex()
    ensures DistanceTo(c, i) < DistanceTo(c, j)
  {
  }

  /** The distance to the first occurrence of x is the offset of the first
      occurrence of x among the elements. */
  lemma DistanceToFirstIndex<T>(c: Collection<T>, x: T)
    requires FirstIndexOf(c, x, c.startIndex).Some?
    ensures var d := DistanceTo(c, FirstIndexOf(c, x, c.startIndex).value);
      d < c.Count() && c.elements[d] == x && forall k :: 0 <= k < d ==> c.elements[k] != x
  {
    var i := FirstIndexOf(c, x, c.startIndex).value;
    var d := DistanceTo(c, i);
    forall k | 0 <= k < d ensures c.elements[k] != x {
      assert c.At(c.startIndex + k) != x;
    }
  }

  /** The test string's grapheme clusters: USA, USA, Brazil, USA, USA. The
      first USA flag is at distance 0 and the Brazil flag at distance 2. */
  lemma DistanceToExample()
    ensures var flags := Collection(0, ["US", "US", "BR", "US", "US"]);
      && FirstIndexOf(flags, "US", 0) == Some(0) && DistanceTo(flags, 0) == 0
      && FirstIndexOf(flags, "BR", 0) == Some(2) && DistanceTo(flags, 2) == 2
  {
    var flags := Collection(0, ["US", "US", "BR", "US", "US"]);
    assert flags.At(0) == "US" && flags.At(1) == "US" && flags.At(2) == "BR";
  }

  /** `[100, 200, 300, 400, 500].dropFirst(2).indexedElements` starts at
      index 2 with 300 and rises by one. */
  lemma IndexedElementsExample()
    ensures IndexedElements(Collection(0, [100, 200, 300, 400, 500]).DropFirst(2))
      == [(2, 300), (3, 400), (4, 500)]
  {
    var tail := Collection(0, [100, 200, 300, 400, 500]).DropFirst(2);
    assert tail.elements == [300, 400, 500];
    var r := IndexedElements(tail);
    assert r[0] == (2, 300) && r[1] == (3, 400) && r[2] == (4, 500);
  }
}
