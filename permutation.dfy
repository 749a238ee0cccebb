/**
 * Permutation utilities of src/include/migraphx/permutation.hpp: reordering a list of
 * dimensions by a permutation, sorting indices by the values they point to (an argsort),
 * inverting a permutation and finding the permutation that orders strides from largest
 * to smallest.
 */
module Permutation {

  /** p lists each of 0 .. |p|-1 exactly once: every entry is in range and no two are equal. */
  ghost predicate IsPermutation(p: seq<int>)
  {
    && (forall i :: 0 <= i < |p| ==> 0 <= p[i] < |p|)
    && (forall i, j :: 0 <= i < j < |p| ==> p[i] != p[j])
  }

  /** q undoes p and p undoes q: p[q[k]] == k and q[p[i]] == i for every position. */
  ghost predicate IsInverse(p: seq<int>, q: seq<int>)
    requires IsPermutation(p)
  {
    && |q| == |p|
    && (forall k :: 0 <= k < |q| ==> 0 <= q[k] < |p| && p[q[k]] == k)
    && (forall i :: 0 <= i < |p| ==> q[p[i]] == i)
  }

  /**
   * What std::sort demands of its comparator: a strict weak ordering, that is irreflexive,
   * transitive, and with incomparability transitive as well.
   */
  ghost predicate StrictWeakOrder(op: (int, int) -> bool)
  {
    && (forall a :: !op(a, a))
    && (forall a, b, c :: op(a, b) && op(b, c) ==> op(a, c))
    && (forall a, b, c :: !op(a, b) && !op(b, c) ==> !op(a, c))
  }

  /**
   * reorder_dims: result[i] = dims[permutation[i]]. The two lists have the same length and
   * every entry of the permutation indexes dims.
   */
  method ReorderDims(dims: seq<int>, permutation: seq<int>) returns (result: seq<int>)
    requires |dims| == |permutation|
    requires forall i :: 0 <= i < |permutation| ==> 0 <= permutation[i] < |dims|
    ensures |result| == |dims|
    ensures forall i :: 0 <= i < |result| ==> result[i] == dims[permutation[i]]
  {
    result := seq(|dims|, _ => 0);
    var i := 0;
    while i < |dims|
      invariant 0 <= i <= |dims| && |result| == |dims|
      invariant forall k :: 0 <= k < i ==> result[k] == dims[permutation[k]]
    {
      result := result[i := dims[permutation[i]]];
      i := i + 1;
    }
  }

  /** The indices held at positions lo .. hi-1 of r are in order of their data values. */
  ghost predicate SortedBy(data: seq<int>, op: (int, int) -> bool, r: seq<int>, lo: int, hi: int)
    requires forall k :: 0 <= k < |r| ==> 0 <= r[k] < |data|
    requires 0 <= lo <= hi <= |r|
  {
    forall a, b :: lo <= a < b < hi ==> !op(data[r[b]], data[r[a]])
  }

  /**
   * The state of one insertion: the index being inserted sits at position j; positions
   * 0 .. j-1 and j+1 .. i are each in order, everything left of j comes no later than
   * everything right of j, and the inserted index precedes everything to its right.
   */
  ghost predicate Inserting(data: seq<int>, op: (int, int) -> bool, s: seq<int>, j: int, i: int)
  {
    && 0 <= j <= i < |s| == |data|
    && IsPermutation(s)
    && SortedBy(data, op, s, 0, j)
    && SortedBy(data, op, s, j + 1, i + 1)
    && (forall a, b :: 0 <= a < j < b <= i ==> !op(data[s[b]], data[s[a]]))
    && (forall b :: j < b <= i ==> !op(data[s[b]], data[s[j]]))
  }

  /** A strict weak ordering never relates two values both ways. */
  lemma Asymmetric(op: (int, int) -> bool, a: int, b: int)
    requires StrictWeakOrder(op) && op(a, b)
    ensures !op(b, a)
  {
  }

  /** Exchanging two adjacent entries of a permutation gives a permutation. */
  lemma SwapIsPermutation(s: seq<int>, j: int)
    requires IsPermutation(s) && 0 < j < |s|
    ensures IsPermutation(s[j - 1 := s[j]][j := s[j - 1]])
  {
    var t := s[j - 1 := s[j]][j := s[j - 1]];
    forall a, b | 0 <= a < b < |t|
      ensures t[a] != t[b]
    {
      assert s[a] != s[b];
    }
  }

  /** Swapping the inserted index with a left neighbour it precedes keeps the insertion state. */
  lemma InsertingStep(data: seq<int>, op: (int, int) -> bool, s: seq<int>, j: int, i: int)
    requires StrictWeakOrder(op)
    requires Inserting(data, op, s, j, i) && j > 0
    requires op(data[s[j]], data[s[j - 1]])
    ensures Inserting(data, op, s[j - 1 := s[j]][j := s[j - 1]], j - 1, i)
  {
    var t := s[j - 1 := s[j]][j := s[j - 1]];
    Asymmetric(op, data[s[j]], data[s[j - 1]]);
    SwapIsPermutation(s, j);
    assert forall k :: 0 <= k < |s| && k != j - 1 && k != j ==> t[k] == s[k];
    assert SortedBy(data, op, t, 0, j - 1);
    assert SortedBy(data, op, t, j, i + 1);
    assert forall a, b :: 0 <= a < j - 1 < b <= i ==> !op(data[t[b]], data[t[a]]);
    assert forall b :: j - 1 < b <= i ==> !op(data[t[b]], data[t[j - 1]]);
  }

  /** An insertion that can go no further leaves positions 0 .. i in order. */
  lemma InsertingDone(data: seq<int>, op: (int, int) -> bool, s: seq<int>, j: int, i: int)
    requires StrictWeakOrder(op)
    requires Inserting(data, op, s, j, i)
    requires j == 0 || !op(data[s[j]], data[s[j - 1]])
    ensures SortedBy(data, op, s, 0, i + 1)
  {
    forall a | 0 <= a < j
      ensures !op(data[s[j]], data[s[a]])
    {
      if a < j - 1 {
        var x, y, z := data[s[j]], data[s[j - 1]], data[s[a]];
        assert !op(x, y) && !op(y, z);
      }
    }
  }

  /** Exchanges two adjacent entries of the index array. */
  method SwapAdjacent(r: array<int>, j: int)
    requires 0 < j < r.Length
    modifies r
    ensures r[..] == old(r[..])[j - 1 := old(r[j])][j := old(r[j - 1])]
  {
    r[j - 1], r[j] := r[j], r[j - 1];
  }

  /**
   * One step of the sort: the index at position i is moved left past every index whose
   * value it precedes under op, so that positions 0 .. i end up in order.
   */
  method InsertIndex(data: seq<int>, op: (int, int) -> bool, r: array<int>, i: int)
    requires StrictWeakOrder(op)
    requires 0 <= i < r.Length == |data|
    requires IsPermutation(r[..])
    requires SortedBy(data, op, r[..], 0, i)
    modifies r
    ensures IsPermutation(r[..])
    ensures SortedBy(data, op, r[..], 0, i + 1)
  {
    var j := i;
    while j > 0 && op(data[r[j]], data[r[j - 1]])
      invariant Inserting(data, op, r[..], j, i)
    {
      InsertingStep(data, op, r[..], j, i);
      SwapAdjacent(r, j);
      j := j - 1;
    }
    InsertingDone(data, op, r[..], j, i);
  }

  /**
   * sort_permutation: the indices 0 .. n-1 (std::iota) sorted in place so that the data
   * value of a later index never precedes that of an earlier one under op. The order among
   * ties is not specified, so the contract does not fix it.
   */
  method SortPermutation(data: seq<int>, op: (int, int) -> bool) returns (result: seq<int>)
    requires StrictWeakOrder(op)
    ensures |result| == |data| && IsPermutation(result)
    ensures forall i, j :: 0 <= i < j < |result| ==> !op(data[result[j]], data[result[i]])
  {
    var r := new int[|data|](k => k);
    var i := 0;
    while i < r.Length
      invariant 0 <= i <= r.Length
      invariant IsPermutation(r[..])
      invariant SortedBy(data, op, r[..], 0, i)
    {
      InsertIndex(data, op, r, i);
      i := i + 1;
    }
    result := r[..];
  }

  /** std::less on the entries of a list. */
  lemma LessIsStrictWeakOrder()
    ensures StrictWeakOrder((a: int, b: int) => a < b)
  {
  }

  /** std::greater on the entries of a list. */
  lemma GreaterIsStrictWeakOrder()
    ensures StrictWeakOrder((a: int, b: int) => a > b)
  {
  }

  /** A strictly increasing list of n values, all in 0 .. n-1, is 0, 1, ..., n-1. */
  lemma {:induction false} IncreasingInRangeIsIdentity(s: seq<int>)
    requires forall i :: 0 <= i < |s| ==> 0 <= s[i] < |s|
    requires forall i, j :: 0 <= i < j < |s| ==> s[i] < s[j]
    ensures forall k :: 0 <= k < |s| ==> s[k] == k
  {
    forall k | 0 <= k < |s|
      ensures s[k] == k
    {
      AtLeastPosition(s, k);
      AtMostPosition(s, k);
    }
  }

  lemma {:induction false} AtLeastPosition(s: seq<int>, k: int)
    requires 0 <= k < |s|
    requires forall i :: 0 <= i < |s| ==> 0 <= s[i]
    requires forall i, j :: 0 <= i < j < |s| ==> s[i] < s[j]
    ensures s[k] >= k
  {
    if k > 0 {
      AtLeastPosition(s, k - 1);
    }
  }

  lemma {:induction false} AtMostPosition(s: seq<int>, k: int)
    requires 0 <= k < |s|
    requires forall i :: 0 <= i < |s| ==> s[i] < |s|
    requires forall i, j :: 0 <= i < j < |s| ==> s[i] < s[j]
    ensures s[k] <= k
    decreases |s| - k
  {
    if k < |s| - 1 {
      AtMostPosition(s, k + 1);
    }
  }

  /**
   * invert_permutation: the argsort of a permutation under std::less is its inverse,
   * p[q[k]] == k and q[p[i]] == i, so reorder_dims(p, q) is the identity.
   */
  method InvertPermutation(permutation: seq<int>) returns (q: seq<int>)
    requires IsPermutation(permutation)
    ensures IsPermutation(q) && IsInverse(permutation, q)
  {
    LessIsStrictWeakOrder();
    q := SortPermutation(permutation, (a: int, b: int) => a < b);
    var s := seq(|q|, k requires 0 <= k < |q| => permutation[q[k]]);
    forall i, j | 0 <= i < j < |s|
      ensures s[i] < s[j]
    {
      assert q[i] != q[j];
    }
    IncreasingInRangeIsIdentity(s);
    forall i | 0 <= i < |permutation|
      ensures q[permutation[i]] == i
    {
      var k := permutation[i];
      assert s[k] == permutation[q[k]] == k == permutation[i];
    }
  }

  /** Inverting twice gives back the permutation: an inverse of the inverse of p is p. */
  lemma InverseTwice(p: seq<int>, q: seq<int>, r: seq<int>)
    requires IsPermutation(p) && IsInverse(p, q)
    requires IsPermutation(q) && IsInverse(q, r)
    ensures r == p
  {
    forall k | 0 <= k < |p|
      ensures r[k] == p[k]
    {
      var i := p[k];
      assert 0 <= i < |q| && q[i] == k;
      assert r[q[i]] == i;
    }
  }

  /**
   * find_permutation: the argsort of a shape's strides under std::greater; the strides
   * read in that order never increase.
   */
  method FindPermutation(strides: seq<int>) returns (result: seq<int>)
    ensures |result| == |strides| && IsPermutation(result)
    ensures forall i, j :: 0 <= i < j < |result| ==> strides[result[i]] >= strides[result[j]]
  {
    GreaterIsStrictWeakOrder();
    result := SortPermutation(strides, (a: int, b: int) => a > b);
  }
}
