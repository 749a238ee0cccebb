/**
 * The reference implementation shared by the reduction operators
 * (src/include/migraphx/op/reduce_op.hpp): which axes are reduced, the shape of the result,
 * and the fold that computes each output element from the input elements that share its
 * coordinates on the axes that are not reduced.
 *
 * Tensors are standard (row-major) and their data are sequences; the derived operator's
 * op(), init(), input() and output() are parameters. The accumulator has the element type.
 */
module ReduceOp {
  import opened Wrappers
  import opened Shapes

  /** Every axis names a dimension of a shape of rank n. */
  ghost predicate AxesInRange(axes: seq<int>, n: nat)
  {
    forall j :: 0 <= j < |axes| ==> 0 <= axes[j] < n
  }

  /** The axes a reduction over rank n works on: all of them when none are given. */
  function TunedAxes(axes: seq<int>, n: nat): seq<int>
  {
    if |axes| == 0 then seq(n, k => k) else axes
  }

  /** The positions of xs that are listed in axes take v; the others keep their value. */
  function Assigned<X>(axes: seq<int>, xs: seq<X>, v: X): seq<X>
  {
    seq(|xs|, k requires 0 <= k < |xs| => if k in axes then v else xs[k])
  }

  /** The positions of dst that are listed in axes take the value src has there. */
  function Overlay(axes: seq<int>, src: seq<nat>, dst: seq<nat>): seq<nat>
    requires |src| == |dst|
  {
    seq(|dst|, k requires 0 <= k < |dst| => if k in axes then src[k] else dst[k])
  }

  /**
   * tune_axes: the reduction's own axes, or 0, 1, ..., n-1 (std::iota) when it was given
   * none.
   */
  method TuneAxes(axes: seq<int>, n: nat) returns (tuned: seq<int>)
    ensures |axes| > 0 ==> tuned == axes
    ensures |axes| == 0 ==> |tuned| == n && forall k :: 0 <= k < n ==> tuned[k] == k
    ensures tuned == TunedAxes(axes, n)
  {
    tuned := axes;
    if |tuned| == 0 {
      var k := 0;
      while k < n
        invariant 0 <= k <= n && tuned == seq(k, j => j)
      {
        tuned := tuned + [k];
        k := k + 1;
      }
    }
  }

  /** With normalised axes, or none, every tuned axis is a dimension, and none means all. */
  lemma TunedAxesCover(axes: seq<int>, n: nat)
    requires AxesInRange(axes, n)
    ensures AxesInRange(TunedAxes(axes, n), n)
    ensures |axes| == 0 ==> forall k :: 0 <= k < n ==> k in TunedAxes(axes, n)
    ensures |axes| > 0 ==> forall k :: 0 <= k < n ==> (k in TunedAxes(axes, n) <==> k in axes)
  {
    if |axes| == 0 {
      forall k | 0 <= k < n
        ensures k in TunedAxes(axes, n)
      {
        assert TunedAxes(axes, n)[k] == k;
      }
    }
  }

  /** Sets the entry at each listed axis to v, one axis at a time. */
  method AssignAxes<X>(axes: seq<int>, xs: seq<X>, v: X) returns (ys: seq<X>)
    requires AxesInRange(axes, |xs|)
    ensures |ys| == |xs|
    ensures forall k :: 0 <= k < |xs| ==> ys[k] == if k in axes then v else xs[k]
    ensures ys == Assigned(axes, xs, v)
  {
    ys := xs;
    var j := 0;
    while j < |axes|
      invariant 0 <= j <= |axes| && |ys| == |xs|
      invariant forall k :: 0 <= k < |xs| ==> ys[k] == if k in axes[..j] then v else xs[k]
    {
      assert axes[..j + 1] == axes[..j] + [axes[j]];
      ys := ys[axes[j] := v];
      j := j + 1;
    }
    assert axes[..j] == axes;
  }

  /**
   * normalize_compute_shape: there must be exactly one input; the result has its type and
   * rank, and every tuned axis becomes 1 (a fixed length of 1, or the range {1, 1} for a
   * dynamic shape) while every other dimension is kept. Axes are normalised to the input's
   * rank before the operator sees them.
   */
  method NormalizeComputeShape(axes: seq<int>, inputs: seq<Shape>) returns (r: Result<Shape>)
    requires |inputs| == 1 ==> AxesInRange(axes, inputs[0].Rank())
    ensures r.Err? <==> |inputs| != 1
    ensures r.Ok? ==> && r.value.ty == inputs[0].ty
                      && r.value.Static? == inputs[0].Static?
                      && r.value.Rank() == inputs[0].Rank()
    ensures r.Ok? && r.value.Static? ==>
              var tuned := TunedAxes(axes, |inputs[0].lens|);
              forall k :: 0 <= k < |r.value.lens| ==>
                r.value.lens[k] == if k in tuned then 1 else inputs[0].lens[k]
    ensures r.Ok? && r.value.Dynamic? ==>
              var tuned := TunedAxes(axes, |inputs[0].dyns|);
              forall k :: 0 <= k < |r.value.dyns| ==>
                r.value.dyns[k] == if k in tuned then DynDim(1, 1) else inputs[0].dyns[k]
  {
    if |inputs| != 1 {
      return Err("Wrong number of arguments: expected 1");
    }
    var s := inputs[0];
    if s.Dynamic? {
      var tuned := TuneAxes(axes, |s.dyns|);
      TunedAxesCover(axes, |s.dyns|);
      var dyns := AssignAxes(tuned, s.dyns, DynDim(1, 1));
      return Ok(Dynamic(s.ty, dyns));
    } else {
      var tuned := TuneAxes(axes, |s.lens|);
      TunedAxesCover(axes, |s.lens|);
      var lens := AssignAxes(tuned, s.lens, 1);
      return Ok(Static(s.ty, lens));
    }
  }

  /**
   * tune_dims: for each tuned axis, out_lens takes in_lens's entry there; every other entry
   * of out_lens is unchanged.
   */
  method TuneDims(tuned: seq<int>, inLens: seq<nat>, outLens: seq<nat>) returns (r: seq<nat>)
    requires |inLens| == |outLens| && AxesInRange(tuned, |outLens|)
    ensures |r| == |outLens|
    ensures forall k :: 0 <= k < |r| ==> r[k] == if k in tuned then inLens[k] else outLens[k]
    ensures r == Overlay(tuned, inLens, outLens)
  {
    r := outLens;
    var j := 0;
    while j < |tuned|
      invariant 0 <= j <= |tuned| && |r| == |outLens|
      invariant forall k :: 0 <= k < |r| ==> r[k] == if k in tuned[..j] then inLens[k] else outLens[k]
    {
      assert tuned[..j + 1] == tuned[..j] + [tuned[j]];
      r := r[tuned[j] := inLens[tuned[j]]];
      j := j + 1;
    }
    assert tuned[..j] == tuned;
  }

  /** The lengths of the computed output shape: the input's, with 1 on every tuned axis. */
  function OutLens(tuned: seq<int>, inLens: seq<nat>): seq<nat>
  {
    Assigned(tuned, inLens, 1)
  }

  /** The lengths of the batch shape: 1 on every axis, except the input's length on tuned axes. */
  function BatchLens(tuned: seq<int>, inLens: seq<nat>): seq<nat>
  {
    Overlay(tuned, inLens, Ones(|inLens|))
  }

  /** The lengths std::vector<std::size_t>(n, 1). */
  function Ones(n: nat): seq<nat>
  {
    seq(n, _ => 1)
  }

  /**
   * An output index of a reduction over inLens: the right rank, and below the input's
   * length on every axis that is not reduced.
   */
  ghost predicate OutputIndex(inLens: seq<nat>, tuned: seq<int>, outIdx: seq<nat>)
  {
    && AxesInRange(tuned, |inLens|)
    && |outIdx| == |inLens|
    && forall k :: 0 <= k < |inLens| && k !in tuned ==> outIdx[k] < inLens[k]
  }

  /**
   * The input element reduce reads for a batch index b: the output index with the tuned
   * axes taken from b. It lies inside the input, agrees with the output index on every axis
   * that is not reduced, and agrees with b on every reduced axis.
   */
  lemma DataIndexInBounds(inLens: seq<nat>, tuned: seq<int>, outIdx: seq<nat>, b: seq<nat>)
    requires OutputIndex(inLens, tuned, outIdx)
    requires InBounds(BatchLens(tuned, inLens), b)
    ensures InBounds(inLens, Overlay(tuned, b, outIdx))
    ensures forall k :: 0 <= k < |inLens| && k !in tuned ==> Overlay(tuned, b, outIdx)[k] == outIdx[k]
    ensures forall k :: 0 <= k < |inLens| && k in tuned ==> Overlay(tuned, b, outIdx)[k] == b[k]
  {
  }

  /** The position of input data read at the batch position p. */
  function ReadPosition(inLens: seq<nat>, tuned: seq<int>, outIdx: seq<nat>, p: nat): (q: nat)
    requires OutputIndex(inLens, tuned, outIdx)
    requires p < Elements(BatchLens(tuned, inLens))
    ensures q < Elements(inLens)
  {
    var batch := BatchLens(tuned, inLens);
    IndexOfUnravel(batch, p);
    var d := Overlay(tuned, Unravel(batch, p), outIdx);
    DataIndexInBounds(inLens, tuned, outIdx, Unravel(batch, p));
    IndexInRange(inLens, d);
    Index(inLens, d)
  }

  /**
   * The accumulator after the first m batch positions, visited in row-major order by
   * shape_for_each: init(), then op(input(x), val) for each element x read.
   */
  function BatchFold<T>(input: seq<T>, inLens: seq<nat>, tuned: seq<int>, outIdx: seq<nat>,
                        init: T, op: (T, T) -> T, inputF: T -> T, m: nat): T
    requires OutputIndex(inLens, tuned, outIdx) && |input| == Elements(inLens)
    requires m <= Elements(BatchLens(tuned, inLens))
  {
    if m == 0 then init
    else
      op(inputF(input[ReadPosition(inLens, tuned, outIdx, m - 1)]),
         BatchFold(input, inLens, tuned, outIdx, init, op, inputF, m - 1))
  }

  /** Overwriting the tuned axes hides whatever a previous batch index left there. */
  lemma OverlayForgets(tuned: seq<int>, b: seq<nat>, dataIdx: seq<nat>, outIdx: seq<nat>)
    requires |b| == |dataIdx| == |outIdx|
    requires forall k :: 0 <= k < |outIdx| && k !in tuned ==> dataIdx[k] == outIdx[k]
    ensures Overlay(tuned, b, dataIdx) == Overlay(tuned, b, outIdx)
  {
  }

  /** The element reduce reads at batch position p is the one ReadPosition names. */
  lemma ReadStep(inLens: seq<nat>, tuned: seq<int>, outIdx: seq<nat>, dataIdx: seq<nat>, p: nat)
    requires OutputIndex(inLens, tuned, outIdx)
    requires p < Elements(BatchLens(tuned, inLens))
    requires dataIdx == Overlay(tuned, Unravel(BatchLens(tuned, inLens), p), outIdx)
    ensures |dataIdx| == |inLens| && Index(inLens, dataIdx) == ReadPosition(inLens, tuned, outIdx, p)
  {
  }

  /**
   * reduce for one output index: the fold of every input element that shares the output
   * index's coordinates off the reduced axes, passed through output() and stored at the
   * output index.
   */
  method Reduce<T>(input: seq<T>, inLens: seq<nat>, tuned: seq<int>, outIdx: seq<nat>,
                   output: array<T>, outLens: seq<nat>,
                   init: T, op: (T, T) -> T, inputF: T -> T, outputF: T -> T)
    requires OutputIndex(inLens, tuned, outIdx) && |input| == Elements(inLens)
    requires |outLens| > 0 && InBounds(outLens, outIdx) && output.Length == Elements(outLens)
    modifies output
    ensures Index(outLens, outIdx) < output.Length
    ensures output[..] == old(output[..])[Index(outLens, outIdx) :=
              outputF(BatchFold(input, inLens, tuned, outIdx, init, op, inputF,
                                Elements(BatchLens(tuned, inLens))))]
  {
    var batch := TuneDims(tuned, inLens, Ones(|inLens|));
    var dataIdx := outIdx;
    var val := init;
    var p := 0;
    while p < Elements(batch)
      invariant 0 <= p <= Elements(batch)
      invariant |dataIdx| == |outIdx|
      invariant forall k :: 0 <= k < |outIdx| && k !in tuned ==> dataIdx[k] == outIdx[k]
      invariant val == BatchFold(input, inLens, tuned, outIdx, init, op, inputF, p)
      invariant output[..] == old(output[..])
    {
      var b := Unravel(batch, p);
      OverlayForgets(tuned, b, dataIdx, outIdx);
      dataIdx := TuneDims(tuned, b, dataIdx);
      ReadStep(inLens, tuned, outIdx, dataIdx, p);
      val := op(inputF(input[Index(inLens, dataIdx)]), val);
      p := p + 1;
    }
    IndexInRange(outLens, outIdx);
    output[Index(outLens, outIdx)] := outputF(val);
  }

  /** Distinct batch positions read distinct input elements. */
  lemma ReadsDistinct(inLens: seq<nat>, tuned: seq<int>, outIdx: seq<nat>, p1: nat, p2: nat)
    requires OutputIndex(inLens, tuned, outIdx)
    requires p1 < p2 < Elements(BatchLens(tuned, inLens))
    ensures ReadPosition(inLens, tuned, outIdx, p1) != ReadPosition(inLens, tuned, outIdx, p2)
  {
    var batch := BatchLens(tuned, inLens);
    IndexOfUnravel(batch, p1);
    IndexOfUnravel(batch, p2);
    var b1, b2 := Unravel(batch, p1), Unravel(batch, p2);
    assert b1 != b2;
    var k :| 0 <= k < |b1| && b1[k] != b2[k];
    var d1, d2 := Overlay(tuned, b1, outIdx), Overlay(tuned, b2, outIdx);
    DataIndexInBounds(inLens, tuned, outIdx, b1);
    DataIndexInBounds(inLens, tuned, outIdx, b2);
    assert k in tuned && d1[k] != d2[k];
    if Index(inLens, d1) == Index(inLens, d2) {
      IndexInjective(inLens, d1, d2);
    }
  }

  /** Every input element that agrees with the output index off the reduced axes is read. */
  lemma ReadsEverything(inLens: seq<nat>, tuned: seq<int>, outIdx: seq<nat>, d: seq<nat>)
    requires |inLens| > 0 && OutputIndex(inLens, tuned, outIdx)
    requires InBounds(inLens, d)
    requires forall k :: 0 <= k < |inLens| && k !in tuned ==> d[k] == outIdx[k]
    ensures exists p :: 0 <= p < Elements(BatchLens(tuned, inLens)) &&
              ReadPosition(inLens, tuned, outIdx, p) == Index(inLens, d)
  {
    var batch := BatchLens(tuned, inLens);
    var b := seq(|inLens|, k requires 0 <= k < |inLens| => if k in tuned then d[k] else 0);
    assert InBounds(batch, b);
    UnravelOfIndex(batch, b);
    IndexInRange(batch, b);
    var p := Index(batch, b);
    assert Overlay(tuned, b, outIdx) == d;
    assert ReadPosition(inLens, tuned, outIdx, p) == Index(inLens, d);
  }

  /**
   * Each input element that shares the output index's coordinates off the reduced axes is
   * read by exactly one batch position: distinct positions read distinct elements, and
   * every such element is read.
   */
  lemma FoldVisitsEachOnce(inLens: seq<nat>, tuned: seq<int>, outIdx: seq<nat>,
                           p1: nat, p2: nat, d: seq<nat>)
    requires OutputIndex(inLens, tuned, outIdx)
    requires p1 < p2 < Elements(BatchLens(tuned, inLens))
    requires InBounds(inLens, d)
    requires forall k :: 0 <= k < |inLens| && k !in tuned ==> d[k] == outIdx[k]
    ensures ReadPosition(inLens, tuned, outIdx, p1) != ReadPosition(inLens, tuned, outIdx, p2)
    ensures exists p :: 0 <= p < Elements(BatchLens(tuned, inLens)) &&
              ReadPosition(inLens, tuned, outIdx, p) == Index(inLens, d)
  {
    ReadsDistinct(inLens, tuned, outIdx, p1, p2);
    ReadsEverything(inLens, tuned, outIdx, d);
  }

  /**
   * compute: the output has the computed shape's element count, and the element at each
   * flat position is output() of the reduce fold for that position's multi-index.
   */
  method Compute<T>(axes: seq<int>, inLens: seq<nat>, input: seq<T>,
                    init: T, op: (T, T) -> T, inputF: T -> T, outputF: T -> T)
    returns (result: seq<T>)
    requires AxesInRange(axes, |inLens|) && |input| == Elements(inLens)
    ensures var tuned := TunedAxes(axes, |inLens|);
            var outLens := OutLens(tuned, inLens);
            && |result| == Elements(outLens)
            && forall i :: 0 <= i < |result| ==>
                 && InBounds(outLens, Unravel(outLens, i))
                 && OutputIndex(inLens, tuned, Unravel(outLens, i))
                 && result[i] == outputF(BatchFold(input, inLens, tuned, Unravel(outLens, i),
                                                  init, op, inputF,
                                                  Elements(BatchLens(tuned, inLens))))
  {
    var tuned := TuneAxes(axes, |inLens|);
    TunedAxesCover(axes, |inLens|);
    var outLens := AssignAxes(tuned, inLens, 1);
    var output := new T[Elements(outLens)](_ => init);
    var i := 0;
    while i < output.Length
      invariant 0 <= i <= output.Length
      invariant forall j :: 0 <= j < i ==>
                  && InBounds(outLens, Unravel(outLens, j))
                  && OutputIndex(inLens, tuned, Unravel(outLens, j))
                  && output[j] == outputF(BatchFold(input, inLens, tuned, Unravel(outLens, j),
                                                   init, op, inputF,
                                                   Elements(BatchLens(tuned, inLens))))
    {
      var outIdx := Unravel(outLens, i);
      IndexOfUnravel(outLens, i);
      Reduce(input, inLens, tuned, outIdx, output, outLens, init, op, inputF, outputF);
      i := i + 1;
    }
    result := output[..];
  }

  /** The sum of a list of integers, last element outermost. */
  function Sum(xs: seq<int>): int
  {
    if xs == [] then 0 else xs[|xs| - 1] + Sum(xs[..|xs| - 1])
  }

  /** Lengths that are all 1 hold exactly one element, at the all-zero multi-index. */
  lemma {:induction false} AllOnesSingleElement(lens: seq<nat>)
    requires forall k :: 0 <= k < |lens| ==> lens[k] == 1
    ensures Product(lens) == 1 && Unravel(lens, 0) == Zeros(|lens|)
  {
    if lens != [] {
      var n := |lens| - 1;
      AllOnesSingleElement(lens[..n]);
      assert Zeros(|lens|) == Zeros(n) + [0];
    }
  }

  /**
   * With no axes given every axis is reduced: the output holds a single element, at the
   * all-zero index, and the batch shape is the input shape.
   */
  lemma ReduceAllAxesShapes(inLens: seq<nat>)
    requires |inLens| > 0
    ensures Elements(OutLens(TunedAxes([], |inLens|), inLens)) == 1
    ensures Unravel(OutLens(TunedAxes([], |inLens|), inLens), 0) == Zeros(|inLens|)
    ensures OutputIndex(inLens, TunedAxes([], |inLens|), Zeros(|inLens|))
    ensures BatchLens(TunedAxes([], |inLens|), inLens) == inLens
  {
    var tuned := TunedAxes([], |inLens|);
    TunedAxesCover([], |inLens|);
    AllOnesSingleElement(OutLens(tuned, inLens));
    assert BatchLens(tuned, inLens) == inLens;
  }

  /**
   * With no axes given and the default init() (zero), input() and output() (identities) and
   * op +, the fold over the first m batch positions of the single output element is the sum
   * of the first m input elements, so the whole fold is the sum of the input.
   */
  lemma {:induction false} ReduceAllAxesIsSum(inLens: seq<nat>, input: seq<int>, m: nat)
    requires |inLens| > 0 && |input| == Elements(inLens) && m <= |input|
    ensures BatchLens(TunedAxes([], |inLens|), inLens) == inLens
    ensures OutputIndex(inLens, TunedAxes([], |inLens|), Zeros(|inLens|))
    ensures BatchFold(input, inLens, TunedAxes([], |inLens|), Zeros(|inLens|), 0, (a: int, b: int) => a + b,
                      (x: int) => x, m) == Sum(input[..m])
  {
    ReduceAllAxesShapes(inLens);
    if m > 0 {
      var n := |inLens|;
      var tuned := TunedAxes([], n);
      ReduceAllAxesIsSum(inLens, input, m - 1);
      var b := Unravel(inLens, m - 1);
      IndexOfUnravel(inLens, m - 1);
      assert Overlay(tuned, b, Zeros(n)) == b;
      assert ReadPosition(inLens, tuned, Zeros(n), m - 1) == m - 1;
      assert input[..m][..m - 1] == input[..m - 1];
    }
  }
}
