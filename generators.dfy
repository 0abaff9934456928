/** The two lazy generators of Sources/CollectionLibrary/Collection.swift,
    `unfoldSubSequences(limitedTo:)` and `every(n:)`. Each is a
    `sequence(state: startIndex)` whose closure owns one cursor index and
    advances it, clamped at `endIndex`, on every pull.

    Each generator appears three times here: a function giving everything the
    cursor still has to yield (the specification), a class holding the cursor
    whose `Next` is one pull of the closure, and a method that pulls until the
    generator is exhausted, as `Array(...)` does. */
module Generators {
  import opened Arithmetic
  import opened Options
  import opened Sequences
  import opened Collections

  /** The elements of a sequence of slices, concatenated. */
  function Flatten<T>(chunks: seq<Collection<T>>): seq<T>
  {
    if chunks == [] then [] else chunks[0].elements + Flatten(chunks[1..])
  }

  /** The chunks `unfoldSubSequences(limitedTo: maxLength)` still yields when
      its cursor is at `lowerBound`. */
  function ChunksFrom<T>(c: Collection<T>, maxLength: int, lowerBound: int): seq<Collection<T>>
    requires maxLength >= 1
    requires c.startIndex <= lowerBound <= c.EndIndex()
    decreases c.EndIndex() - lowerBound
  {
    if lowerBound >= c.EndIndex() then []
    else
      var upperBound := IndexOffsetBy(lowerBound, maxLength, c.EndIndex()).GetOr(c.EndIndex());
      [c.Slice(lowerBound, upperBound)] + ChunksFrom(c, maxLength, upperBound)
  }

  /** The elements `every(n:)` still yields when its cursor is at `index`. */
  function StrideFrom<T>(c: Collection<T>, n: int, index: int): seq<T>
    requires n >= 1
    requires c.startIndex <= index <= c.EndIndex()
    decreases c.EndIndex() - index
  {
    if index >= c.EndIndex() then []
    else [c.At(index)] + StrideFrom(c, n, FormIndex(index, n, c.EndIndex()).1)
  }

  /** The chunks, concatenated, are the elements from `lowerBound` on. */
  lemma {:induction false} ChunksFromFlatten<T>(c: Collection<T>, maxLength: int, lowerBound: int)
    requires maxLength >= 1
    requires c.startIndex <= lowerBound <= c.EndIndex()
    ensures Flatten(ChunksFrom(c, maxLength, lowerBound)) == c.elements[lowerBound - c.startIndex..]
    decreases c.EndIndex() - lowerBound
  {
    if lowerBound < c.EndIndex() {
      var upperBound := IndexOffsetBy(lowerBound, maxLength, c.EndIndex()).GetOr(c.EndIndex());
      var r := ChunksFrom(c, maxLength, lowerBound);
      assert r[1..] == ChunksFrom(c, maxLength, upperBound);
      ChunksFromFlatten(c, maxLength, upperBound);
      var lo, hi := lowerBound - c.startIndex, upperBound - c.startIndex;
      assert c.elements[lo..hi] + c.elements[hi..] == c.elements[lo..];
    }
  }

  /** Chunk k starts k * maxLength positions after `lowerBound`, before
      `endIndex`, and ends maxLength positions later or at `endIndex`,
      whichever comes first; it is the slice of the collection between those
      bounds. */
  lemma {:induction false} ChunkAt<T>(c: Collection<T>, maxLength: int, lowerBound: int, k: nat)
    requires maxLength >= 1
    requires c.startIndex <= lowerBound <= c.EndIndex()
    requires k < |ChunksFrom(c, maxLength, lowerBound)|
    ensures var chunk := ChunksFrom(c, maxLength, lowerBound)[k];
      && chunk.startIndex == lowerBound + k * maxLength < c.EndIndex()
      && chunk.EndIndex() == Min(lowerBound + (k + 1) * maxLength, c.EndIndex())
      && chunk == c.Slice(chunk.startIndex, chunk.EndIndex())
    decreases k
  {
    var upperBound := IndexOffsetBy(lowerBound, maxLength, c.EndIndex()).GetOr(c.EndIndex());
    var r := ChunksFrom(c, maxLength, lowerBound);
    var r' := ChunksFrom(c, maxLength, upperBound);
    assert r == [c.Slice(lowerBound, upperBound)] + r';
    MulSucc(k, maxLength);
    if k > 0 {
      assert r[k] == r'[k - 1];
      assert upperBound == lowerBound + maxLength;
      ChunkAt(c, maxLength, upperBound, k - 1);
      MulSucc(k - 1, maxLength);
    }
  }

  /** There are (endIndex - lowerBound) / maxLength chunks, rounded up: they
      reach `endIndex`, and the last of them starts before it. */
  lemma {:induction false} ChunksFromCount<T>(c: Collection<T>, maxLength: int, lowerBound: int)
    requires maxLength >= 1
    requires c.startIndex <= lowerBound <= c.EndIndex()
    ensures var n := |ChunksFrom(c, maxLength, lowerBound)|;
      lowerBound + (n - 1) * maxLength < c.EndIndex() <= lowerBound + n * maxLength
    decreases c.EndIndex() - lowerBound
  {
    var n := |ChunksFrom(c, maxLength, lowerBound)|;
    if n > 0 {
      ChunkAt(c, maxLength, lowerBound, n - 1);
    }
    if lowerBound < c.EndIndex() {
      var upperBound := IndexOffsetBy(lowerBound, maxLength, c.EndIndex()).GetOr(c.EndIndex());
      var r' := ChunksFrom(c, maxLength, upperBound);
      assert |ChunksFrom(c, maxLength, lowerBound)| == |r'| + 1;
      ChunksFromCount(c, maxLength, upperBound);
      MulSucc(|r'|, maxLength);
    }
  }

  /** Every chunk is non-empty and holds `maxLength` elements, except the
      last, which holds between 1 and `maxLength`. */
  lemma ChunksFromSizes<T>(c: Collection<T>, maxLength: int, lowerBound: int)
    requires maxLength >= 1
    requires c.startIndex <= lowerBound <= c.EndIndex()
    ensures var r := ChunksFrom(c, maxLength, lowerBound);
      && (forall k :: 0 <= k < |r| ==> 1 <= r[k].Count() <= maxLength)
      && (forall k :: 0 <= k < |r| - 1 ==> r[k].Count() == maxLength)
  {
    var r := ChunksFrom(c, maxLength, lowerBound);
    forall k | 0 <= k < |r|
      ensures 1 <= r[k].Count() <= maxLength
      ensures k < |r| - 1 ==> r[k].Count() == maxLength
    {
      ChunkAt(c, maxLength, lowerBound, k);
      MulSucc(k, maxLength);
      if k < |r| - 1 {
        ChunkAt(c, maxLength, lowerBound, k + 1);
      }
    }
  }

  /** Element k of the stride is the element k * n positions after
      `index`, which lies before `endIndex`. */
  lemma {:induction false} StrideAt<T>(c: Collection<T>, n: int, index: int, k: nat)
    requires n >= 1
    requires c.startIndex <= index <= c.EndIndex()
    requires k < |StrideFrom(c, n, index)|
    ensures index + k * n < c.EndIndex()
    ensures StrideFrom(c, n, index)[k] == c.At(index + k * n)
    decreases k
  {
    var next := FormIndex(index, n, c.EndIndex()).1;
    var r := StrideFrom(c, n, index);
    var r' := StrideFrom(c, n, next);
    assert r == [c.At(index)] + r';
    if k > 0 {
      assert r[k] == r'[k - 1];
      assert next == index + n;
      StrideAt(c, n, next, k - 1);
      MulSucc(k - 1, n);
    }
  }

  /** The stride has (endIndex - index) / n elements, rounded up: its last
      element lies before `endIndex`, and the position n steps after it does
      not. */
  lemma {:induction false} StrideFromCount<T>(c: Collection<T>, n: int, index: int)
    requires n >= 1
    requires c.startIndex <= index <= c.EndIndex()
    ensures var m := |StrideFrom(c, n, index)|;
      index + (m - 1) * n < c.EndIndex() <= index + m * n
    decreases c.EndIndex() - index
  {
    var m := |StrideFrom(c, n, index)|;
    if m > 0 {
      StrideAt(c, n, index, m - 1);
    }
    if index < c.EndIndex() {
      var next := FormIndex(index, n, c.EndIndex()).1;
      var r' := StrideFrom(c, n, next);
      assert |StrideFrom(c, n, index)| == |r'| + 1;
      StrideFromCount(c, n, next);
      MulSucc(|r'|, n);
    }
  }

  /** The cursor of `unfoldSubSequences(limitedTo:)`: the closure's `inout`
      state `lowerBound`. */
  class SubSequenceCursor<T> {
    const source: Collection<T>
    const maxLength: int
    var lowerBound: int

    ghost predicate Valid()
      reads this
    {
      maxLength >= 1 && source.startIndex <= lowerBound <= source.EndIndex()
    }

    /** The chunks this cursor has still to yield. */
    ghost function Remaining(): seq<Collection<T>>
      reads this
      requires Valid()
    {
      ChunksFrom(source, maxLength, lowerBound)
    }

    /** `sequence(state: startIndex)`. */
    constructor (source: Collection<T>, maxLength: int)
      requires maxLength >= 1
      ensures Valid() && this.source == source && this.maxLength == maxLength
      ensures lowerBound == source.startIndex
      ensures Remaining() == ChunksFrom(source, maxLength, source.startIndex)
    {
      this.source := source;
      this.maxLength := maxLength;
      lowerBound := source.startIndex;
    }

    /** One pull: nil once the cursor is at `endIndex`; otherwise the window
        of at most maxLength elements from the cursor, and the cursor moves
        (by `defer`) to the window's end. */
    method Next() returns (chunk: Option<Collection<T>>)
      requires Valid()
      modifies this
      ensures Valid()
      ensures chunk.None? <==> old(Remaining()) == []
      ensures chunk.None? ==> lowerBound == old(lowerBound)
      ensures chunk.Some? ==> old(lowerBound) < lowerBound <= source.EndIndex()
      ensures chunk.Some? ==> lowerBound == Min(old(lowerBound) + maxLength, source.EndIndex())
      ensures chunk.Some? ==> chunk.value.startIndex == old(lowerBound) && chunk.value.EndIndex() == lowerBound
      ensures chunk.Some? ==> chunk.value == source.Slice(old(lowerBound), lowerBound)
      ensures chunk.Some? ==> old(Remaining()) == [chunk.value] + Remaining()
    {
      if !(lowerBound < source.EndIndex()) {
        return None;
      }
      var upperBound := IndexOffsetBy(lowerBound, maxLength, source.EndIndex()).GetOr(source.EndIndex());
      chunk := Some(source.Slice(lowerBound, upperBound));
      lowerBound := upperBound;
    }
  }

  /** The cursor of `every(n:)`: the closure's `inout` state `index`. */
  class StrideCursor<T> {
    const source: Collection<T>
    const n: int
    var index: int

    ghost predicate Valid()
      reads this
    {
      n >= 1 && source.startIndex <= index <= source.EndIndex()
    }

    /** The elements this cursor has still to yield. */
    ghost function Remaining(): seq<T>
      reads this
      requires Valid()
    {
      StrideFrom(source, n, index)
    }

    /** `sequence(state: startIndex)`. */
    constructor (source: Collection<T>, n: int)
      requires n >= 1
      ensures Valid() && this.source == source && this.n == n
      ensures index == source.startIndex
      ensures Remaining() == StrideFrom(source, n, source.startIndex)
    {
      this.source := source;
      this.n := n;
      index := source.startIndex;
    }

    /** One pull: nil once the cursor is at `endIndex`; otherwise the element
        at the cursor, after which (by `defer`) `formIndex` moves the cursor
        n steps on, or to `endIndex` if fewer remain. */
    method Next() returns (element: Option<T>)
      requires Valid()
      modifies this
      ensures Valid()
      ensures element.None? <==> old(Remaining()) == []
      ensures element.None? ==> index == old(index)
      ensures element.Some? ==> old(index) < index <= source.EndIndex()
      ensures element.Some? ==> index == Min(old(index) + n, source.EndIndex())
      ensures element.Some? ==> element.value == source.At(old(index))
      ensures element.Some? ==> old(Remaining()) == [element.value] + Remaining()
    {
      if !(index < source.EndIndex()) {
        return None;
      }
      element := Some(source.At(index));
      index := FormIndex(index, n, source.EndIndex()).1;
    }
  }

  /** `Array(c.unfoldSubSequences(limitedTo: maxLength))`: the chunks, which
      concatenate to the whole collection, all of length maxLength but the
      last, which is not empty. */
  method UnfoldSubSequences<T>(c: Collection<T>, maxLength: int) returns (chunks: seq<Collection<T>>)
    requires maxLength >= 1
    ensures chunks == ChunksFrom(c, maxLength, c.startIndex)
    ensures Flatten(chunks) == c.elements
    ensures forall k :: 0 <= k < |chunks| ==> 1 <= chunks[k].Count() <= maxLength
    ensures forall k :: 0 <= k < |chunks| - 1 ==> chunks[k].Count() == maxLength
  {
    var cursor := new SubSequenceCursor(c, maxLength);
    chunks := [];
    while true
      invariant cursor.Valid() && cursor.source == c && cursor.maxLength == maxLength
      invariant chunks + cursor.Remaining() == ChunksFrom(c, maxLength, c.startIndex)
      decreases |cursor.Remaining()|
    {
      var chunk := cursor.Next();
      if chunk.None? {
        break;
      }
      chunks := chunks + [chunk.value];
    }
    ChunksFromFlatten(c, maxLength, c.startIndex);
    ChunksFromSizes(c, maxLength, c.startIndex);
  }

  /** `Array(c.every(n: n))`: the elements at offsets 0, n, 2n, ... that lie
      below the count. */
  method Every<T>(c: Collection<T>, n: int) returns (xs: seq<T>)
    requires n >= 1
    ensures xs == StrideFrom(c, n, c.startIndex)
    ensures forall k :: 0 <= k < |xs| ==> k * n < c.Count() && xs[k] == c.elements[k * n]
    ensures c.Count() <= |xs| * n
  {
    var cursor := new StrideCursor(c, n);
    xs := [];
    while true
      invariant cursor.Valid() && cursor.source == c && cursor.n == n
      invariant xs + cursor.Remaining() == StrideFrom(c, n, c.startIndex)
      decreases |cursor.Remaining()|
    {
      var element := cursor.Next();
      if element.None? {
        break;
      }
      xs := xs + [element.value];
    }
    StrideFromCount(c, n, c.startIndex);
    forall k | 0 <= k < |xs|
      ensures k * n < c.Count() && xs[k] == c.elements[k * n]
    {
      StrideAt(c, n, c.startIndex, k);
    }
  }

  function ChunkElements(chunks: seq<Collection<int>>): seq<seq<int>>
  {
    Map(chunks, (s: Collection<int>) => s.elements)
  }

  /** `[1, 2, 3, 4, 5].unfoldSubSequences(limitedTo: 2)` yields
      `[[1, 2], [3, 4], [5]]`. */
  lemma ChunksExample()
    ensures ChunkElements(ChunksFrom(Collection(0, [1, 2, 3, 4, 5]), 2, 0)) == [[1, 2], [3, 4], [5]]
  {
    var c := Collection(0, [1, 2, 3, 4, 5]);
    var r := ChunksFrom(c, 2, 0);
    ChunksFromCount(c, 2, 0);
    ChunkAt(c, 2, 0, 0);
    ChunkAt(c, 2, 0, 1);
    assert |r| == 3;
    ChunkAt(c, 2, 0, 2);
    assert r[0] == c.Slice(0, 2) && r[1] == c.Slice(2, 4) && r[2] == c.Slice(4, 5);
    assert r[0].elements == [1, 2] && r[1].elements == [3, 4] && r[2].elements == [5];
  }

  /** `Array(1...10).every(n: 3)` yields `[1, 4, 7, 10]`. */
  lemma EveryExample()
    ensures StrideFrom(Collection(0, [1, 2, 3, 4, 5, 6, 7, 8, 9, 10]), 3, 0) == [1, 4, 7, 10]
  {
    var c := Collection(0, [1, 2, 3, 4, 5, 6, 7, 8, 9, 10]);
    var r := StrideFrom(c, 3, 0);
    StrideFromCount(c, 3, 0);
    StrideAt(c, 3, 0, 0);
    StrideAt(c, 3, 0, 1);
    StrideAt(c, 3, 0, 2);
    assert |r| == 4;
    StrideAt(c, 3, 0, 3);
  }
}
