/** Sources/CollectionLibrary/RangeReplaceableCollection.swift:
    `remove(while:)` and `removeLast(while:)`. Each first searches the
    indices, read-only, for the element at which trimming stops, and only
    then changes the collection, by one `removeSubrange` or by `removeAll()`
    when no element stops it. */
module RangeReplaceable {
  import opened Options

  /** The elements left after dropping the longest prefix whose elements
      all satisfy p: a suffix of xs, empty or starting with an element that
      fails p. */
  function TrimFront<T>(xs: seq<T>, p: T -> bool): (r: seq<T>)
    ensures |r| <= |xs| && r == xs[|xs| - |r|..]
    ensures forall j :: 0 <= j < |xs| - |r| ==> p(xs[j])
    ensures r == [] || !p(r[0])
  {
    if xs == [] then [] else if p(xs[0]) then TrimFront(xs[1..], p) else xs
  }

  /** The elements left after dropping the longest suffix whose elements
      all satisfy p: a prefix of xs, empty or ending with an element that
      fails p. */
  function TrimBack<T>(xs: seq<T>, p: T -> bool): (r: seq<T>)
    ensures |r| <= |xs| && r == xs[..|r|]
    ensures forall j :: |r| <= j < |xs| ==> p(xs[j])
    ensures r == [] || !p(r[|r| - 1])
  {
    if xs == [] then []
    else if p(xs[|xs| - 1]) then TrimBack(xs[..|xs| - 1], p)
    else xs
  }

  /** When k is the first index whose element fails p (or |xs| if none
      does), trimming the front leaves exactly xs[k..]. */
  lemma {:induction false} TrimFrontAt<T>(xs: seq<T>, p: T -> bool, k: nat)
    requires k <= |xs|
    requires forall j :: 0 <= j < k ==> p(xs[j])
    requires k < |xs| ==> !p(xs[k])
    ensures TrimFront(xs, p) == xs[k..]
    decreases k
  {
    if k > 0 {
      assert p(xs[0]);
      var tail := xs[1..];
      assert forall j :: 0 <= j < k - 1 ==> tail[j] == xs[j + 1];
      TrimFrontAt(tail, p, k - 1);
      assert tail[k - 1..] == xs[k..];
    }
  }

  /** When k - 1 is the last index whose element fails p (k = 0 if none
      does), trimming the back leaves exactly xs[..k]. */
  lemma {:induction false} TrimBackAt<T>(xs: seq<T>, p: T -> bool, k: nat)
    requires k <= |xs|
    requires forall j :: k <= j < |xs| ==> p(xs[j])
    requires k > 0 ==> !p(xs[k - 1])
    ensures TrimBack(xs, p) == xs[..k]
    decreases |xs| - k
  {
    if k < |xs| {
      assert p(xs[|xs| - 1]);
      var init := xs[..|xs| - 1];
      assert forall j :: k <= j < |init| ==> init[j] == xs[j];
      TrimBackAt(init, p, k);
      assert init[..k] == xs[..k];
    } else {
      assert xs[..k] == xs;
    }
  }

  /** Trimming leaves nothing exactly when every element satisfies p. */
  lemma TrimEmptyIffAll<T>(xs: seq<T>, p: T -> bool)
    ensures TrimFront(xs, p) == [] <==> forall j :: 0 <= j < |xs| ==> p(xs[j])
    ensures TrimBack(xs, p) == [] <==> forall j :: 0 <= j < |xs| ==> p(xs[j])
  {
    if forall j :: 0 <= j < |xs| ==> p(xs[j]) {
      TrimFrontAt(xs, p, |xs|);
      TrimBackAt(xs, p, 0);
    }
  }

  /** Trimming twice with the same predicate changes nothing the second
      time. */
  lemma TrimIdempotent<T>(xs: seq<T>, p: T -> bool)
    ensures TrimFront(TrimFront(xs, p), p) == TrimFront(xs, p)
    ensures TrimBack(TrimBack(xs, p), p) == TrimBack(xs, p)
  {
    var f, b := TrimFront(xs, p), TrimBack(xs, p);
    TrimFrontAt(f, p, 0);
    TrimBackAt(b, p, |b|);
  }

  /** `first(where:)` over the indices: the first index whose element
      satisfies q, or nil. */
  method FirstIndexWhere<T>(xs: seq<T>, q: T -> bool) returns (r: Option<nat>)
    ensures r.Some? ==> r.value < |xs| && q(xs[r.value])
    ensures r.Some? ==> forall j :: 0 <= j < r.value ==> !q(xs[j])
    ensures r.None? ==> forall j :: 0 <= j < |xs| ==> !q(xs[j])
  {
    var i := 0;
    while i < |xs|
      invariant 0 <= i <= |xs|
      invariant forall j :: 0 <= j < i ==> !q(xs[j])
    {
      if q(xs[i]) {
        return Some(i);
      }
      i := i + 1;
    }
    return None;
  }

  /** `indices.reversed().first(where:)`: the last index whose element
      satisfies q, or nil. */
  method LastIndexWhere<T>(xs: seq<T>, q: T -> bool) returns (r: Option<nat>)
    ensures r.Some? ==> r.value < |xs| && q(xs[r.value])
    ensures r.Some? ==> forall j :: r.value < j < |xs| ==> !q(xs[j])
    ensures r.None? ==> forall j :: 0 <= j < |xs| ==> !q(xs[j])
  {
    var i := |xs|;
    while i > 0
      invariant 0 <= i <= |xs|
      invariant forall j :: i <= j < |xs| ==> !q(xs[j])
    {
      i := i - 1;
      if q(xs[i]) {
        return Some(i);
      }
    }
    return None;
  }

  /** A range-replaceable collection such as an Array, with its indices
      counted from 0, changed in place. */
  class ReplaceableCollection<T> {
    var elements: seq<T>

    constructor (xs: seq<T>)
      ensures elements == xs
    {
      elements := xs;
    }

    /** `removeAll()`. */
    method RemoveAll()
      modifies this
      ensures elements == []
    {
      elements := [];
    }

    /** `removeSubrange(lo..<hi)`. */
    method RemoveSubrange(lo: nat, hi: nat)
      requires lo <= hi <= |elements|
      modifies this
      ensures elements == old(elements[..lo] + elements[hi..])
    {
      elements := elements[..lo] + elements[hi..];
    }

    /** `remove(while:)`: drops the longest prefix whose elements satisfy
        p; the rest keeps its order and is empty or starts with an element
        that fails p. A second call with the same p changes nothing. */
    method RemoveWhile(p: T -> bool)
      modifies this
      ensures elements == TrimFront(old(elements), p)
      ensures TrimFront(elements, p) == elements
    {
      ghost var xs := elements;
      var cut := FirstIndexWhere(elements, x => !p(x));
      if cut.None? {
        assert forall j :: 0 <= j < |xs| ==> p(xs[j]);
        TrimFrontAt(xs, p, |xs|);
        RemoveAll();
      } else {
        assert forall j :: 0 <= j < cut.value ==> p(xs[j]);
        TrimFrontAt(xs, p, cut.value);
        RemoveSubrange(0, cut.value);
        assert elements == xs[cut.value..];
      }
      TrimIdempotent(old(elements), p);
    }

    /** `removeLast(while:)`: drops the longest suffix whose elements
        satisfy p, keeping the last element that fails p (removal starts at
        the index after it); the rest is a prefix of the original. A second
        call with the same p changes nothing. */
    method RemoveLastWhile(p: T -> bool)
      modifies this
      ensures elements == TrimBack(old(elements), p)
      ensures TrimBack(elements, p) == elements
    {
      ghost var xs := elements;
      var cut := LastIndexWhere(elements, x => !p(x));
      if cut.None? {
        assert forall j :: 0 <= j < |xs| ==> p(xs[j]);
        TrimBackAt(xs, p, 0);
        RemoveAll();
      } else {
        assert forall j :: cut.value + 1 <= j < |xs| ==> p(xs[j]);
        TrimBackAt(xs, p, cut.value + 1);
        RemoveSubrange(cut.value + 1, |elements|);
        assert elements == xs[..cut.value + 1];
      }
      TrimIdempotent(old(elements), p);
    }
  }
}
