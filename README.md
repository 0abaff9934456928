# CollectionLibrary, modelled in Dafny

CollectionLibrary is a small Swift library of generic algorithms that extend Swift's `Collection`, `Sequence` and `RangeReplaceableCollection`. This project models three parts of it and proves what its doc comments and tests promise:

- **The position-cursor generators** of `Collection.swift`.
  - `unfoldSubSequences(limitedTo:)` cuts a collection into consecutive slices of at most `maxLength` elements.
  - `every(n:)` yields every n-th element, starting at the first.
  - Both run on the index primitives `index(_:offsetBy:limitedBy:)` and `formIndex(_:offsetBy:limitedBy:)`.
  - Two neighbours are modelled with them: `indexedElements` (both forms) and `distance(to:)`.
- **Integer aggregation**: `sum()` and `sum(_:)` (`Sequence.swift`), and the `BinaryInteger` overloads of `average()` and `average(_:)` (`Collection.swift`).
- **Trimming in place**: `remove(while:)` and `removeLast(while:)` (`RangeReplaceableCollection.swift`).

## Layout

| file | module | models |
|---|---|---|
| `arithmetic.dfy` | `Arithmetic` | `Min`, `Abs`, and the few nonlinear arithmetic steps the proofs need |
| `options.dfy` | `Options` | Swift's optional (`nil` is `None`) and `??` |
| `sequences.dfy` | `Sequences` | `reduce` as a left fold, `sum()`, `sum(_:)`, `map`, and the `for … in` loop |
| `collections.dfy` | `Collections` | the collection and its positions, slices and `dropFirst`, the index primitives, `indices`, `zip`, `indexedElements`, `distance(to:)` |
| `generators.dfy` | `Generators` | `unfoldSubSequences(limitedTo:)` and `every(n:)` |
| `averages.dfy` | `Averages` | Swift's truncating integer `/`, `average()` and `average(_:)` for integers |
| `range_replaceable.dfy` | `RangeReplaceable` | `remove(while:)`, `removeLast(while:)` and the searches they run first |

## How the model is built

- **Collections and positions.**
  - A collection is `Collection(startIndex, elements)`, and its indices run from `startIndex` up to `EndIndex() = startIndex + |elements|`. This is the index model of Swift arrays and array slices.
  - A slice keeps the indices of the collection it was cut from. So `[100, 200, 300, 400, 500].dropFirst(2)` starts at index 2, and so does its `indexedElements`.
  - `IndexOffsetBy` is `index(i, offsetBy: n, limitedBy: limit)` for a forward step. It returns `None` exactly when `limit` lies ahead of `i` but fewer than `n` steps away.
  - `FormIndex` is `formIndex`. When the full step is not possible, it moves the index to `limit`.
- **The generators.** Each generator is modelled three times, and the three are proved to agree:
  - A specification function, `ChunksFrom` or `StrideFrom`, gives everything the generator still yields from a cursor position. It follows the closure branch by branch: the `guard … < endIndex`, the clamped step, and the slice or the element.
  - A class, `SubSequenceCursor` or `StrideCursor`, owns the cursor as a mutable field. Its `Next` method is one pull of the closure. It returns `None` at `endIndex`; otherwise it returns the chunk or element and moves the cursor, which is what the `defer` does.
  - A method, `UnfoldSubSequences` or `Every`, pulls until the generator is exhausted, as `Array(...)` does in the tests.
  - The lemmas give the closed form: chunk `k` starts `k * maxLength` positions in, and element `k` is at offset `k * n`. They also show the count is the element count divided by the step, rounded up. The drain methods' postconditions state the promised properties from these lemmas.
- **Sums.**
  - `Sum` is `FoldLeft(xs, 0, Add)` and `SumOf` is `FoldLeft(xs, 0, (acc, x) => acc + f(x))`. These mirror `reduce(.zero, +)` and `reduce(.zero) { $0 + predicate($1) }`.
  - `ForEach` is the `for … in` loop. It is a method, and it is proved to compute the same fold.
- **Averages.** `TruncDiv` is Swift's integer `/`, which rounds toward zero. Dafny's own `/` is Euclidean, so it is not used directly. `TruncDiv` is specified by its remainder: the remainder is smaller than the divisor and has the dividend's sign.
- **Trimming.**
  - `ReplaceableCollection` is a class whose `elements` field the methods reassign.
  - `RemoveWhile` first runs the read-only search `FirstIndexWhere` for an element that fails the predicate, as `indices.first(where:)` does. `RemoveLastWhile` runs `LastIndexWhere`, as `indices.reversed().first(where:)` does.
  - Only after the search does the method make one call: `RemoveSubrange`, or `RemoveAll` when no element fails.
  - Each method is proved to leave exactly `TrimFront(old elements)` or `TrimBack(old elements)`. These are independent recursive definitions, and their own contracts state maximality.

The empty case of the averages follows the code:
- Only `average()` returns zero for an empty collection, because it has an `isEmpty` guard (`Collection.swift:60`).
- The projected `average(_:)` has no guard (`Collection.swift:85`), and Swift traps on integer division by zero. So `AverageOf` requires a non-empty collection.

## Model

| member | source | states |
|---|---|---|
| `Sequences.FoldLeft` | Sources/CollectionLibrary/Sequence.swift:10 | `reduce`; no contract of its own, characterized by FoldLeftSnoc and by ForEach, whose loop it specifies |
| `Sequences.Sum` | Sources/CollectionLibrary/Sequence.swift:10 | `sum()`; no contract of its own, characterized by SumEmpty, SumSnoc, SumCons, SumConcat, SumBounds and SumExample |
| `Sequences.SumOf` | Sources/CollectionLibrary/Sequence.swift:15-17 | `sum(_:)`; no contract of its own, characterized by SumOfIsSumOfMap and SumOfExample |
| `Sequences.Map` | Tests/CollectionLibraryTests/SequenceTests.swift:24-27 | `map`: as long as its input, with f applied to element k at position k |
| `Sequences.SumEmpty` | Sources/CollectionLibrary/Sequence.swift:10 | the sum of the empty sequence is zero |
| `Sequences.FoldLeftSnoc` | Sources/CollectionLibrary/Sequence.swift:10 | `reduce` is a left fold: one more element applies the combining function once more, to the old result |
| `Sequences.SumSnoc` | Sources/CollectionLibrary/Sequence.swift:10 | appending x to a sequence adds x to its sum |
| `Sequences.SumConcat` | Sources/CollectionLibrary/Sequence.swift:10 | the sum of a concatenation is the sum of the two parts |
| `Sequences.SumCons` | Sources/CollectionLibrary/Sequence.swift:10 | the sum of `[x] + xs` is x plus the sum of xs |
| `Sequences.SumOfIsSumOfMap` | Sources/CollectionLibrary/Sequence.swift:15-17 | `sum(f)` equals `sum()` of the sequence mapped through f |
| `Sequences.SumBounds` | Sources/CollectionLibrary/Sequence.swift:10 | if every element lies in [lo, hi], the sum lies in [n·lo, n·hi] |
| `Sequences.SumExample` | Tests/CollectionLibraryTests/SequenceTests.swift:18-21 | `[1, 2, 3, 4, 5].sum()` is 15 |
| `Sequences.SumOfExample` | Tests/CollectionLibraryTests/SequenceTests.swift:23-29 | the users' ages 45 and 50 sum to 95 |
| `Sequences.ForEach` | Sources/CollectionLibrary/Collection.swift:14-16 | the `for … in` loop hands the elements to the body in order, so its final state is the left fold of the body over the sequence |
| `Options.Option.GetOr` | Sources/CollectionLibrary/Collection.swift:26-29 | `x ?? default` is the wrapped value when there is one and the default otherwise |
| `Collections.Collection.At` | Sources/CollectionLibrary/Collection.swift:45 | `self[index]`; no contract of its own, characterized by Slice, IndexedElements and DistanceTo |
| `Collections.Collection.Indices` | Sources/CollectionLibrary/Collection.swift:20 | `indices`; no contract of its own, characterized by Range and IndexedElements |
| `Collections.Collection.EndIndex` | Sources/CollectionLibrary/Collection.swift:25-28 | `endIndex`; no contract of its own, characterized by Slice, IndexedElements and the generator lemmas |
| `Collections.Collection.Count` | Sources/CollectionLibrary/Collection.swift:60 | `count`; no contract of its own, characterized by IndexedElements, DropFirst and the average lemmas |
| `Collections.Collection.Slice` | Sources/CollectionLibrary/Collection.swift:31 | `self[lo..<hi]` starts at lo, ends at hi, and has the same element at every index as the collection it was cut from |
| `Collections.Collection.DropFirst` | Tests/CollectionLibraryTests/CollectionTests.swift:32 | `dropFirst(k)` keeps `endIndex`; it starts min(k, count) positions later and holds the elements from that offset on |
| `Collections.IndexOffsetBy` | Sources/CollectionLibrary/Collection.swift:26-29 | a returned index is exactly n steps on; when the limit lies ahead, an index is returned iff the limit is not passed |
| `Collections.FormIndex` | Sources/CollectionLibrary/Collection.swift:39-43 | the cursor moves to min(i + n, limit), never past the limit; it moves strictly forward when n ≥ 1 and i < limit; the flag says whether the full step was taken |
| `Collections.Range` | Sources/CollectionLibrary/Collection.swift:20 | `indices` holds hi − lo consecutive integers from lo |
| `Collections.Zip` | Sources/CollectionLibrary/Collection.swift:20 | `zip` is as long as the shorter side, and pair k holds element k of each side |
| `Collections.IndexedElements` | Sources/CollectionLibrary/Collection.swift:19-21 | one pair per element, in order; pair k holds the index startIndex + k (for a slice, its own start) and the element at that index |
| `Collections.ForEachIndexed` | Sources/CollectionLibrary/Collection.swift:13-17 | the body sees the pairs of `indexedElements` in order, so the state it threads through is their left fold |
| `Collections.Distance` | Sources/CollectionLibrary/Collection.swift:50-53 | the number of `index(after:)` steps from i reaches j |
| `Collections.DistanceTo` | Sources/CollectionLibrary/Collection.swift:49-54 | `distance(to: i)` is the offset of i from startIndex: it is 0 exactly at startIndex, and the element at i is the element at that offset |
| `Collections.FirstIndexOf` | Tests/CollectionLibraryTests/CollectionTests.swift:66 | `firstIndex(of: x)` returns an index holding x with no x before it, or nil when x does not occur |
| `Collections.DistanceToIncreasing` | Sources/CollectionLibrary/Collection.swift:49-54 | the distance grows strictly as the position advances |
| `Collections.DistanceToFirstIndex` | Sources/CollectionLibrary/Collection.swift:49-54 | the distance to `firstIndex(of: x)` is the offset of the first occurrence of x |
| `Collections.DistanceToExample` | Tests/CollectionLibraryTests/CollectionTests.swift:64-72 | in USA, USA, Brazil, USA, USA the first USA flag is at distance 0 and the Brazil flag at distance 2 |
| `Collections.IndexedElementsExample` | Tests/CollectionLibraryTests/CollectionTests.swift:28-50 | the `indexedElements` of `[100, 200, 300, 400, 500].dropFirst(2)` are (2, 300), (3, 400), (4, 500) |
| `Generators.ChunksFrom` | Sources/CollectionLibrary/Collection.swift:24-32 | the chunks the closure still yields, following it branch by branch; no contract of its own, characterized by ChunkAt, ChunksFromFlatten, ChunksFromCount and ChunksFromSizes |
| `Generators.StrideFrom` | Sources/CollectionLibrary/Collection.swift:36-46 | the elements the closure still yields, following it branch by branch; no contract of its own, characterized by StrideAt and StrideFromCount |
| `Generators.ChunksFromFlatten` | Sources/CollectionLibrary/Collection.swift:23-33 | concatenating the chunks reproduces the elements from the cursor on |
| `Generators.ChunkAt` | Sources/CollectionLibrary/Collection.swift:24-31 | chunk k starts k·maxLength positions after the cursor, before endIndex; it ends at min(start + maxLength, endIndex); it is the slice between those bounds |
| `Generators.ChunksFromCount` | Sources/CollectionLibrary/Collection.swift:24-31 | the number of chunks is the remaining length divided by maxLength, rounded up |
| `Generators.ChunksFromSizes` | Sources/CollectionLibrary/Collection.swift:25-29 | every chunk has length maxLength except the last, whose length lies in [1, maxLength] |
| `Generators.StrideAt` | Sources/CollectionLibrary/Collection.swift:35-47 | element k of `every(n:)` is the element k·n positions after the cursor, which lies before endIndex |
| `Generators.StrideFromCount` | Sources/CollectionLibrary/Collection.swift:36-44 | the stride's last offset is below endIndex, and the offset n further is not, so no offset is missed |
| `Generators.SubSequenceCursor.constructor` | Sources/CollectionLibrary/Collection.swift:24 | `sequence(state: startIndex)`: the cursor starts at startIndex, with every chunk still to come |
| `Generators.SubSequenceCursor.Next` | Sources/CollectionLibrary/Collection.swift:25-31 | one pull gives nil iff nothing remains, leaving the cursor in place; otherwise it gives the next chunk, which is the slice of the source from the old cursor to the new one, and the cursor moves to exactly min(old cursor + maxLength, endIndex) |
| `Generators.StrideCursor.constructor` | Sources/CollectionLibrary/Collection.swift:36 | the cursor starts at startIndex, with every element of the stride still to come |
| `Generators.StrideCursor.Next` | Sources/CollectionLibrary/Collection.swift:37-45 | one pull gives nil iff nothing remains, leaving the cursor in place; otherwise it gives the element at the old cursor, and `formIndex` moves the cursor to exactly min(old cursor + n, endIndex) |
| `Generators.UnfoldSubSequences` | Sources/CollectionLibrary/Collection.swift:23-33 | pulling to the end gives the full chunk list; it concatenates to the collection; every chunk is non-empty and has maxLength elements except possibly the last |
| `Generators.Every` | Sources/CollectionLibrary/Collection.swift:35-47 | pulling to the end gives exactly the elements at offsets 0, n, 2n, … below the count |
| `Generators.ChunksExample` | Tests/CollectionLibraryTests/CollectionTests.swift:52-56 | `[1, 2, 3, 4, 5]` with limit 2 gives `[[1, 2], [3, 4], [5]]` |
| `Generators.EveryExample` | Tests/CollectionLibraryTests/CollectionTests.swift:58-62 | `Array(1...10).every(n: 3)` gives `[1, 4, 7, 10]` |
| `Averages.TruncDiv` | Sources/CollectionLibrary/Collection.swift:60 | Swift's integer `/` rounds toward zero: the remainder is smaller than the divisor and has the dividend's sign |
| `Averages.Average` | Sources/CollectionLibrary/Collection.swift:59-61 | `average()` is 0 for an empty collection; otherwise it is the mean truncated toward zero, bracketed by the sum on the proper side |
| `Averages.AverageOf` | Sources/CollectionLibrary/Collection.swift:84-86 | on a non-empty collection, `average(_:)` is the mean of the projections truncated toward zero |
| `Averages.TruncDivWithin` | Sources/CollectionLibrary/Collection.swift:60 | if n·lo ≤ s ≤ n·hi, then s / n lies in [lo, hi] |
| `Averages.AverageWithin` | Sources/CollectionLibrary/Collection.swift:59-61 | the average never leaves the range of the elements |
| `Averages.AverageOfIsAverageOfMap` | Sources/CollectionLibrary/Collection.swift:84-86 | averaging through a projection equals averaging the projected sequence |
| `Averages.AverageExample` | Tests/CollectionLibraryTests/CollectionTests.swift:74-78 | the average of `[1, 2, 3, 4, 5]` is 3 |
| `Averages.AverageOfExample` | Tests/CollectionLibraryTests/CollectionTests.swift:98-105 | the ages 45 and 50 average to 47 (95 / 2 truncated) |
| `RangeReplaceable.TrimFront` | Sources/CollectionLibrary/RangeReplaceableCollection.swift:2-8 | the result is a suffix of the input; every dropped element satisfies p; the result is empty or its first element fails p, so the dropped prefix is the longest one |
| `RangeReplaceable.TrimBack` | Sources/CollectionLibrary/RangeReplaceableCollection.swift:9-15 | the result is a prefix of the input; every dropped element satisfies p; the result is empty or its last element fails p, so the dropped suffix is the longest one |
| `RangeReplaceable.TrimFrontAt` | Sources/CollectionLibrary/RangeReplaceableCollection.swift:3-7 | if k is the first index whose element fails p (or the count if none fails), the front trim leaves exactly the suffix from k |
| `RangeReplaceable.TrimBackAt` | Sources/CollectionLibrary/RangeReplaceableCollection.swift:10-14 | if k − 1 is the last index whose element fails p, the back trim leaves exactly the prefix through it, since removal starts at `index(after:)` |
| `RangeReplaceable.TrimEmptyIffAll` | Sources/CollectionLibrary/RangeReplaceableCollection.swift:2-15 | either trim leaves nothing iff every element satisfies p |
| `RangeReplaceable.TrimIdempotent` | Sources/CollectionLibrary/RangeReplaceableCollection.swift:2-15 | trimming a second time with the same predicate changes nothing |
| `RangeReplaceable.FirstIndexWhere` | Sources/CollectionLibrary/RangeReplaceableCollection.swift:3 | `indices.first(where:)` returns the first index whose element satisfies the condition, or nil iff there is none |
| `RangeReplaceable.LastIndexWhere` | Sources/CollectionLibrary/RangeReplaceableCollection.swift:10 | `indices.reversed().first(where:)` returns the last index whose element satisfies the condition, or nil iff there is none |
| `RangeReplaceable.ReplaceableCollection.RemoveAll` | Sources/CollectionLibrary/RangeReplaceableCollection.swift:4 | `removeAll()` leaves the collection empty |
| `RangeReplaceable.ReplaceableCollection.RemoveSubrange` | Sources/CollectionLibrary/RangeReplaceableCollection.swift:7 | `removeSubrange(lo..<hi)` leaves the elements before lo followed by those from hi |
| `RangeReplaceable.ReplaceableCollection.RemoveWhile` | Sources/CollectionLibrary/RangeReplaceableCollection.swift:2-8 | `remove(while:)` leaves exactly the front trim of the old elements: the longest all-p prefix is gone, the rest is unchanged and in order, and a second call changes nothing |
| `RangeReplaceable.ReplaceableCollection.RemoveLastWhile` | Sources/CollectionLibrary/RangeReplaceableCollection.swift:9-15 | `removeLast(while:)` leaves exactly the back trim of the old elements: the longest all-p suffix is gone, the rightmost failing element is kept, and a second call changes nothing |

## Left out

- Floating-point averages (`Collection.swift:63-65`, `68-73`, `88-94`) are not modelled: Dafny has no IEEE floating point.
- Decimal averages (`Collection.swift:75-80`, `96-98`) are not modelled: Foundation's `Decimal`, with its precision and rounding, is not part of this model.
- `sum()` and `sum(_:)` are modelled for integer elements only. Swift's generic `AdditiveArithmetic` also covers floating point and `Decimal`, which are left out for the same reasons.
- Sequences.Sum: does not model fixed-width overflow. Swift traps when a sum leaves the range of the element type, and here integers are unbounded. The same holds for `SumOf`, `Average` and `AverageOf`.
- Averages.Average: the conversion `Element(count)` is treated as exact. In Swift it traps when the count does not fit the element type (an `Int8` collection of 200 elements, say). The same holds for `T(count)` in `AverageOf`.
- RangeReplaceable.ReplaceableCollection.RemoveWhile and RangeReplaceable.ReplaceableCollection.RemoveLastWhile: throwing predicates are not modelled, and neither is `rethrows`. Predicates are total Dafny functions. The read-only search runs to completion before the single assignment to `elements`. That ordering is what makes the Swift methods leave the collection untouched when the predicate throws, but an aborted search is not itself modelled.
- A throwing closure passed to `indexedElements(body:)` is not modelled. The closure's effect on its caller is modelled as a state transformer.
- Swift's `UnfoldSequence` and the iterator protocol are not modelled. The generators are the cursor classes and their `Next` methods.
- `maxLength < 1` and `n < 1` are excluded by preconditions. On a non-empty collection the source then yields forever for a step of 0 (endless empty slices, or the first element over and over) and traps for a negative step, on an invalid range or subscript. On an empty collection the guard `lowerBound < endIndex` or `index < endIndex` (`Collection.swift:25`, `37`) returns nil on the first pull, so the source answers any step with an empty sequence; the preconditions exclude those calls too, and the model does not cover them.
- `index(_:offsetBy:limitedBy:)` is modelled for forward steps only. `Collection.swift` calls it with the step the caller passes, which the preconditions keep positive.
- Indices are modelled as consecutive integers, as for `Array` and `ArraySlice`. Opaque index types such as `String.Index` are not modelled. The flag test's grapheme clusters stand as string values in a five-element collection.
- `ReplaceableCollection` counts its indices from 0, as an `Array` does. A slice-based range-replaceable collection would have a different start index, and that case is not modelled.
- Marker-bounded subsequence extraction and the non-mutating `dropLast(while:)` are not part of this model: their source is not among the files modelled here.
