/**
 * tensor_view (src/include/migraph/tensor_view.hpp): a non-owning view of a buffer through
 * a shape. The view's shape is standard (row-major, contiguous), so flat position i is
 * buffer element i and a multi-index is read at its mixed-radix value.
 *
 * Element comparison (float_equal) is a parameter of the equality operators.
 */
module TensorView {
  import opened Shapes

  /** size_t arithmetic is modulo 2^64. */
  const SizeModulus: int := 0x1_0000_0000_0000_0000

  /** A view: a possibly null buffer and the shape through which it is read. */
  class View<T> {
    const data: array?<T>
    const shape: Shape

    /** The element count is a size_t, and the buffer, when there is one, holds every element. */
    ghost predicate Valid()
    {
      && shape.Static?
      && Elements(shape.lens) < SizeModulus
      && (data != null ==> Elements(shape.lens) <= data.Length)
    }

    /** The default view: no buffer and a shape without lengths. */
    constructor Default()
      ensures data == null && shape == Static(0, [])
      ensures Valid() && Empty()
    {
      data := null;
      shape := Static(0, []);
    }

    /** A view of d through s. */
    constructor (s: Shape, d: array?<T>)
      requires s.Static? && Elements(s.lens) < SizeModulus
      requires d != null ==> Elements(s.lens) <= d.Length
      ensures shape == s && data == d
      ensures Valid()
    {
      shape := s;
      data := d;
    }

    /** empty(): no buffer, or a shape without lengths. */
    predicate Empty()
    {
      data == null || shape.Rank() == 0
    }

    /** size(): the shape's element count. */
    function Size(): (n: nat)
      requires Valid()
      ensures n < SizeModulus
      ensures data != null ==> n <= data.Length
    {
      Elements(shape.lens)
    }

    /**
     * operator() with a multi-index, for an index inside the shape on every axis: the
     * element at the index's row-major position, which lies inside the buffer.
     */
    function At(idx: seq<nat>): (r: T)
      requires Valid() && !Empty() && InBounds(shape.lens, idx)
      reads data
      ensures Index(shape.lens, idx) < data.Length && r == data[Index(shape.lens, idx)]
    {
      IndexInRange(shape.lens, idx);
      data[Index(shape.lens, idx)]
    }

    /**
     * operator[] of a non-empty view, for i below size(): the element whose multi-index is
     * the i-th of the shape in row-major order.
     */
    function Get(i: nat): (r: T)
      requires Valid() && !Empty() && i < Size()
      reads data
      ensures InBounds(shape.lens, Unravel(shape.lens, i))
      ensures r == At(Unravel(shape.lens, i))
    {
      IndexOfUnravel(shape.lens, i);
      data[i]
    }

    /**
     * The flat position back() reads, computed as the source does in size_t: size() - 1
     * wraps to 2^64 - 1 when the view has no elements.
     */
    function BackIndexAsWritten(): (k: nat)
      requires Valid()
      ensures k < SizeModulus
      ensures Size() > 0 ==> k == Size() - 1
    {
      (Size() - 1) % SizeModulus
    }

    /**
     * front() of a view that holds at least one element: the element at the all-zero
     * multi-index, which is the first of the row-major order.
     */
    function Front(): (r: T)
      requires Valid() && !Empty() && Size() > 0
      reads data
      ensures r == Get(0)
      ensures InBounds(shape.lens, Zeros(|shape.lens|)) && r == At(Zeros(|shape.lens|))
    {
      FirstIndex(shape.lens);
      data[0]
    }

    /**
     * back() of a view that holds at least one element: the element at the multi-index
     * whose every coordinate is its axis length minus one, the last of the row-major order.
     */
    function Back(): (r: T)
      requires Valid() && !Empty() && Size() > 0
      reads data
      ensures r == Get(Size() - 1)
      ensures InBounds(shape.lens, Lasts(shape.lens)) && r == At(Lasts(shape.lens))
    {
      LastIndex(shape.lens);
      data[BackIndexAsWritten()]
    }

    /** begin() of a standard view, as an offset into the buffer: m_data itself. */
    function Begin(): (b: nat)
      ensures b == 0
    {
      0
    }

    /** end() of a standard view, as an offset: begin() when empty, else begin() + size(). */
    function End(): (e: nat)
      requires Valid()
      ensures Begin() <= e && (data != null ==> e <= data.Length)
    {
      if Empty() then Begin() else Begin() + Size()
    }

    /** The mutable operator[]: writing element i changes that element and no other. */
    method Set(i: nat, v: T)
      requires Valid() && !Empty() && i < Size()
      modifies data
      ensures data[..] == old(data[..])[i := v]
      ensures Get(i) == v
    {
      data[i] := v;
    }
  }

  /** The multi-index of the last coordinate on every axis (lengths are positive). */
  function Lasts(lens: seq<nat>): (l: seq<nat>)
    requires forall k :: 0 <= k < |lens| ==> lens[k] > 0
    ensures |l| == |lens| && forall k :: 0 <= k < |lens| ==> l[k] + 1 == lens[k]
  {
    seq(|lens|, k requires 0 <= k < |lens| => lens[k] - 1)
  }

  /** A shape with a positive product has positive lengths. */
  lemma {:induction false} PositiveLengths(lens: seq<nat>)
    requires Product(lens) > 0
    ensures forall k :: 0 <= k < |lens| ==> lens[k] > 0
  {
    if lens != [] {
      var n := |lens| - 1;
      PositiveLengths(lens[..n]);
      assert forall k :: 0 <= k < n ==> lens[k] == lens[..n][k];
    }
  }

  /** The all-zero multi-index sits at flat position 0. */
  lemma {:induction false} FirstIndex(lens: seq<nat>)
    requires Product(lens) > 0
    ensures InBounds(lens, Zeros(|lens|)) && Index(lens, Zeros(|lens|)) == 0
  {
    PositiveLengths(lens);
    if lens != [] {
      var n := |lens| - 1;
      FirstIndex(lens[..n]);
      assert Zeros(|lens|)[..n] == Zeros(n);
    }
  }

  /** The multi-index of last coordinates sits at flat position size() - 1. */
  lemma {:induction false} LastIndex(lens: seq<nat>)
    requires Product(lens) > 0
    ensures forall k :: 0 <= k < |lens| ==> lens[k] > 0
    ensures InBounds(lens, Lasts(lens)) && Index(lens, Lasts(lens)) == Product(lens) - 1
  {
    PositiveLengths(lens);
    if lens != [] {
      var n := |lens| - 1;
      PositiveLengths(lens[..n]);
      LastIndex(lens[..n]);
      assert Lasts(lens)[..n] == Lasts(lens[..n]);
      var p := Product(lens[..n]);
      assert Index(lens, Lasts(lens)) == (p - 1) * lens[n] + lens[n] - 1;
    }
  }

  /**
   * The iterator range [begin(), end()) holds exactly the positions operator[] accepts,
   * and an empty view has an empty range.
   */
  lemma RangeIsAccessible<T>(v: View<T>, i: nat)
    requires v.Valid()
    ensures v.Begin() <= i < v.End() <==> !v.Empty() && i < v.Size()
    ensures v.Empty() ==> v.End() == v.Begin()
  {
  }

  /**
   * The bounds check of operator() with a multi-index, as written: the index is
   * lexicographically below the lengths, and its position is below the element count.
   */
  predicate AccessGuardAsWritten(lens: seq<nat>, idx: seq<nat>)
    requires |idx| == |lens|
  {
    LexLess(idx, lens) && Index(lens, idx) < Elements(lens)
  }

  /** std::vector's operator<: lexicographic comparison. */
  predicate LexLess(a: seq<nat>, b: seq<nat>)
  {
    if a == [] then b != []
    else b != [] && (a[0] < b[0] || (a[0] == b[0] && LexLess(a[1..], b[1..])))
  }

  /**
   * The bounds check as written accepts every index that is inside the shape on every axis,
   * so it is never stricter than the per-axis check At demands.
   */
  lemma GuardAdmitsInBounds(lens: seq<nat>, idx: seq<nat>)
    requires |lens| > 0 && InBounds(lens, idx)
    ensures AccessGuardAsWritten(lens, idx)
  {
    IndexInRange(lens, idx);
  }

  /**
   * The bounds check as written lets two different multi-indices reach the same element:
   * with lengths [2, 3], the index [0, 5] passes and aliases the element at [1, 2].
   */
  lemma AccessGuardAdmitsAliasing()
    ensures AccessGuardAsWritten([2, 3], [0, 5]) && AccessGuardAsWritten([2, 3], [1, 2])
    ensures Index([2, 3], [0, 5]) == Index([2, 3], [1, 2])
    ensures !InBounds([2, 3], [0, 5])
  {
    assert [2, 3][..1] == [2] && [0, 5][..1] == [0] && [1, 2][..1] == [1];
    assert [2][..0] == [] && [0][..0] == [] && [1][..0] == [];
  }

  /**
   * With the per-axis check that At demands, access is one-to-one: distinct in-bounds
   * multi-indices read distinct buffer elements, and every element is reached.
   */
  lemma AccessIsOneToOne(lens: seq<nat>, a: seq<nat>, b: seq<nat>, i: nat)
    requires InBounds(lens, a) && InBounds(lens, b) && a != b
    requires i < Product(lens)
    ensures Index(lens, a) != Index(lens, b)
    ensures InBounds(lens, Unravel(lens, i)) && Index(lens, Unravel(lens, i)) == i
  {
    if Index(lens, a) == Index(lens, b) {
      IndexInjective(lens, a, b);
    }
    IndexOfUnravel(lens, i);
  }

  /**
   * A view whose shape has a zero length but no missing buffer is not empty(), so the
   * assertion of back() lets it through, and back() then reads position 2^64 - 1 of a
   * view that has no elements.
   */
  lemma ZeroLengthBackOutOfRange<T>(v: View<T>)
    requires v.Valid() && v.data != null && v.shape.lens == [0]
    ensures !v.Empty()
    ensures v.Size() == 0 && v.BackIndexAsWritten() == SizeModulus - 1
  {
  }

  /** x == y: equal shapes, and float_equal holds of every pair of elements at the same position. */
  ghost predicate ElementsMatch<T, U>(x: View<T>, y: View<U>, floatEqual: (T, U) -> bool)
    requires x.Valid() && y.Valid()
    requires x.shape == y.shape && x.Size() > 0 ==> x.data != null && y.data != null
    reads x.data, y.data
  {
    && x.shape == y.shape
    && forall i :: 0 <= i < x.Size() ==> floatEqual(x.Get(i), y.Get(i))
  }

  /**
   * operator==: compares the shapes, then the elements in order, stopping at the first
   * pair that is not float_equal. Views of equal shape with elements must both have a
   * buffer, since operator[] asserts it.
   */
  method Equal<T, U>(x: View<T>, y: View<U>, floatEqual: (T, U) -> bool) returns (b: bool)
    requires x.Valid() && y.Valid()
    requires x.shape == y.shape && x.Size() > 0 ==> x.data != null && y.data != null
    ensures b <==> ElementsMatch(x, y, floatEqual)
  {
    if x.shape != y.shape {
      return false;
    }
    var i := 0;
    while i < x.Size()
      invariant 0 <= i <= x.Size()
      invariant forall k :: 0 <= k < i ==> floatEqual(x.Get(k), y.Get(k))
    {
      if !floatEqual(x.Get(i), y.Get(i)) {
        return false;
      }
      i := i + 1;
    }
    return true;
  }

  /** operator!=: exactly the negation of operator==. */
  method NotEqual<T, U>(x: View<T>, y: View<U>, floatEqual: (T, U) -> bool) returns (b: bool)
    requires x.Valid() && y.Valid()
    requires x.shape == y.shape && x.Size() > 0 ==> x.data != null && y.data != null
    ensures b <==> !ElementsMatch(x, y, floatEqual)
  {
    var eq := Equal(x, y, floatEqual);
    b := !eq;
  }

  /** With a reflexive element comparison every view with its buffer equals itself. */
  lemma EqualReflexive<T>(x: View<T>, floatEqual: (T, T) -> bool)
    requires x.Valid() && (x.Size() > 0 ==> x.data != null)
    requires forall a :: floatEqual(a, a)
    ensures ElementsMatch(x, x, floatEqual)
  {
  }

  /** With a symmetric element comparison, x == y exactly when y == x. */
  lemma EqualSymmetric<T>(x: View<T>, y: View<T>, floatEqual: (T, T) -> bool)
    requires x.Valid() && y.Valid()
    requires x.shape == y.shape && x.Size() > 0 ==> x.data != null && y.data != null
    requires forall a, b :: floatEqual(a, b) == floatEqual(b, a)
    ensures ElementsMatch(x, y, floatEqual) <==> ElementsMatch(y, x, floatEqual)
  {
  }
}
