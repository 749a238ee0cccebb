/**
 * The part of migraphx::shape the core relies on: element types, static lengths, dynamic
 * dimension ranges, and the row-major (standard) layout in which the flat index of a
 * multi-index is its mixed-radix value.
 */
module Shapes {
  import opened Arith

  /** A dynamic dimension: the range of lengths it may take. */
  datatype DynDim = DynDim(min: nat, max: nat)

  /** A shape is an element type together with either fixed lengths or dynamic ranges. */
  datatype Shape = Static(ty: nat, lens: seq<nat>) | Dynamic(ty: nat, dyns: seq<DynDim>)
  {
    /** The number of dimensions. */
    function Rank(): nat
    {
      if Static? then |lens| else |dyns|
    }
  }

  /** Product of all lengths (1 for no lengths). */
  function Product(lens: seq<nat>): nat
  {
    if lens == [] then 1 else Product(lens[..|lens| - 1]) * lens[|lens| - 1]
  }

  /** shape::elements(): the product of the lengths, and 0 for a shape with no lengths. */
  function Elements(lens: seq<nat>): (n: nat)
    ensures |lens| > 0 ==> n == Product(lens)
    ensures |lens| == 0 ==> n == 0
  {
    if |lens| == 0 then 0 else Product(lens)
  }

  /** The multi-index of n zeros. */
  function Zeros(n: nat): (z: seq<nat>)
    ensures |z| == n && forall k :: 0 <= k < n ==> z[k] == 0
  {
    seq(n, _ => 0)
  }

  /** A multi-index of the right rank whose every coordinate is below its length. */
  ghost predicate InBounds(lens: seq<nat>, idx: seq<nat>)
  {
    |idx| == |lens| && forall k :: 0 <= k < |idx| ==> idx[k] < lens[k]
  }

  /** shape::index of a standard shape: the flat position of a multi-index, last axis fastest. */
  function Index(lens: seq<nat>, idx: seq<nat>): nat
    requires |idx| == |lens|
  {
    if lens == [] then 0
    else Index(lens[..|lens| - 1], idx[..|idx| - 1]) * lens[|lens| - 1] + idx[|idx| - 1]
  }

  /** shape::multi of a standard shape: the multi-index at flat position i. */
  function Unravel(lens: seq<nat>, i: nat): (idx: seq<nat>)
    requires i < Product(lens)
    ensures |idx| == |lens|
  {
    if lens == [] then []
    else
      var d := lens[|lens| - 1];
      assert d > 0;
      DivBelow(i, d, Product(lens[..|lens| - 1]));
      Unravel(lens[..|lens| - 1], i / d) + [i % d]
  }

  /** An in-bounds multi-index has a flat position inside the shape. */
  lemma {:induction false} IndexInRange(lens: seq<nat>, idx: seq<nat>)
    requires InBounds(lens, idx)
    ensures Index(lens, idx) < Product(lens)
  {
    if lens != [] {
      var n := |lens| - 1;
      IndexInRange(lens[..n], idx[..n]);
      MulAddBelow(Index(lens[..n], idx[..n]), idx[n], lens[n], Product(lens[..n]));
    }
  }

  /** multi then index is the identity on the positions of a shape. */
  lemma {:induction false} IndexOfUnravel(lens: seq<nat>, i: nat)
    requires i < Product(lens)
    ensures InBounds(lens, Unravel(lens, i))
    ensures Index(lens, Unravel(lens, i)) == i
  {
    if lens != [] {
      var n := |lens| - 1;
      var d := lens[n];
      DivBelow(i, d, Product(lens[..n]));
      IndexOfUnravel(lens[..n], i / d);
      var idx := Unravel(lens, i);
      assert idx[..n] == Unravel(lens[..n], i / d);
    }
  }

  /** index then multi is the identity on the in-bounds multi-indices of a shape. */
  lemma {:induction false} UnravelOfIndex(lens: seq<nat>, idx: seq<nat>)
    requires InBounds(lens, idx)
    ensures Index(lens, idx) < Product(lens)
    ensures Unravel(lens, Index(lens, idx)) == idx
  {
    IndexInRange(lens, idx);
    if lens != [] {
      var n := |lens| - 1;
      var q := Index(lens[..n], idx[..n]);
      IndexInRange(lens[..n], idx[..n]);
      DivModUnique(Index(lens, idx), lens[n], q, idx[n]);
      UnravelOfIndex(lens[..n], idx[..n]);
      assert idx == idx[..n] + [idx[n]];
    }
  }

  /** Two in-bounds multi-indices with the same flat position are equal. */
  lemma IndexInjective(lens: seq<nat>, a: seq<nat>, b: seq<nat>)
    requires InBounds(lens, a) && InBounds(lens, b)
    requires Index(lens, a) == Index(lens, b)
    ensures a == b
  {
    UnravelOfIndex(lens, a);
    UnravelOfIndex(lens, b);
  }
}
