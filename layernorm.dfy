/**
 * Layer normalisation on the GPU (src/targets/gpu/device/layernorm.cpp): the lane helpers of
 * the packed value type, the choice between the 4-wide and the scalar kernel, the launch
 * sizing, and the index and mask arithmetic by which every thread finds the element it
 * normalises and writes.
 *
 * The floating-point part of the kernel (mean, variance, epsilon, reciprocal square root)
 * is abstracted into a function `normalize(group, x)`: the value a thread writes depends
 * only on the row it belongs to and on the element it loaded.
 */
module LayerNorm {
  import opened Wrappers
  import opened Arith
  import opened Shapes

  /** Largest execution group either kernel is launched with (max_block_size). */
  const MaxBlockSize: nat := 256

  /** Lane count of the packed kernel instantiation (layernorm_vec_impl<4>). */
  const VectorWidth: nat := 4

  /** Relements below this are served by the scalar kernel when they are not a multiple of 4. */
  const ScalarLimit: nat := 256

  // ---------------------------------------------------------------------------------------
  // Packed values: vec_transform and vec_reduce
  // ---------------------------------------------------------------------------------------

  /** A per-thread operand: a plain scalar, or a packed vec<T, N> of N lanes. */
  datatype Vec<T> = Scalar(value: T) | Packed(lanes: seq<T>)
  {
    /** vector_size: 1 for a scalar, N for a packed value. */
    function Width(): nat
    {
      if Scalar? then 1 else |lanes|
    }
  }

  /** The left fold op(...op(op(init, xs[0]), xs[1])..., xs[n-1]). */
  function FoldLeft<T>(op: (T, T) -> T, init: T, xs: seq<T>): T
  {
    if xs == [] then init else op(FoldLeft(op, init, xs[..|xs| - 1]), xs[|xs| - 1])
  }

  /**
   * vec_transform: a scalar becomes f(x); a packed value keeps its width and has f applied
   * to every lane on its own.
   */
  method VecTransform<T>(x: Vec<T>, f: T -> T) returns (y: Vec<T>)
    ensures y.Width() == x.Width() && y.Scalar? == x.Scalar?
    ensures x.Scalar? ==> y.value == f(x.value)
    ensures x.Packed? ==> forall k :: 0 <= k < |x.lanes| ==> y.lanes[k] == f(x.lanes[k])
  {
    match x
    case Scalar(v) =>
      y := Scalar(f(v));
    case Packed(lanes) =>
      var out := lanes;
      var k := 0;
      while k < |lanes|
        invariant 0 <= k <= |lanes| && |out| == |lanes|
        invariant forall j :: 0 <= j < k ==> out[j] == f(lanes[j])
      {
        out := out[k := f(lanes[k])];
        k := k + 1;
      }
      y := Packed(out);
  }

  /**
   * vec_reduce: a scalar is returned as it is (init is ignored); a packed value is folded
   * from the left, lane 0 first, starting from init.
   */
  method VecReduce<T>(x: Vec<T>, init: T, op: (T, T) -> T) returns (r: T)
    ensures x.Scalar? ==> r == x.value
    ensures x.Packed? ==> r == FoldLeft(op, init, x.lanes)
  {
    match x
    case Scalar(v) =>
      r := v;
    case Packed(lanes) =>
      r := init;
      var k := 0;
      while k < |lanes|
        invariant 0 <= k <= |lanes|
        invariant r == FoldLeft(op, init, lanes[..k])
      {
        assert lanes[..k + 1][..k] == lanes[..k];
        r := op(r, lanes[k]);
        k := k + 1;
      }
      assert lanes[..|lanes|] == lanes;
  }

  /**
   * The final step of auto_block_reduce: the block-wide result (one value per lane) is
   * compressed into one scalar with the same operator, starting from 0.
   */
  method AutoBlockReduceFold(blockResult: Vec<int>, op: (int, int) -> int) returns (r: int)
    ensures blockResult.Scalar? ==> r == blockResult.value
    ensures blockResult.Packed? ==> r == FoldLeft(op, 0, blockResult.lanes)
  {
    r := VecReduce(blockResult, 0, op);
  }

  /** Folding a concatenation is folding the second part from the first part's result. */
  lemma {:induction false} FoldLeftAppend<T>(op: (T, T) -> T, init: T, xs: seq<T>, ys: seq<T>)
    ensures FoldLeft(op, init, xs + ys) == FoldLeft(op, FoldLeft(op, init, xs), ys)
    decreases |ys|
  {
    if ys == [] {
      assert xs + ys == xs;
    } else {
      var zs := xs + ys;
      assert zs[..|zs| - 1] == xs + ys[..|ys| - 1];
      FoldLeftAppend(op, init, xs, ys[..|ys| - 1]);
    }
  }

  /** n lanes all equal to v, summed from 0 as the mean computation does, give n * v. */
  lemma {:induction false} FoldSumOfCopies(v: int, n: nat)
    ensures FoldLeft((a: int, b: int) => a + b, 0, seq(n, _ => v)) == n * v
  {
    if n > 0 {
      var s := seq(n, _ => v);
      assert s[..n - 1] == seq(n - 1, _ => v);
      FoldSumOfCopies(v, n - 1);
    }
  }

  // ---------------------------------------------------------------------------------------
  // Dispatch and launch sizing
  // ---------------------------------------------------------------------------------------

  /** The two kernel instantiations. */
  datatype Kernel = VectorKernel | ScalarKernel

  /** Everything the host side decides before gs_launch. */
  datatype LaunchPlan = LaunchPlan(
    kernel: Kernel,
    width: nat,        // lanes per thread: 4 or 1
    nelements: nat,    // number of rows (groups) to normalise
    relements: nat,    // scalars per row
    relementsV: nat,   // packed elements per row: relements / width
    blockSize: nat,    // threads per execution group
    globalSize: nat)   // threads launched: nelements * blockSize

  /**
   * What compute_block_size(n, 256) is relied on to return: a positive group size no larger
   * than 256, and at least n whenever n itself fits in 256.
   */
  ghost predicate IsBlockSizer(computeBlockSize: nat -> nat)
  {
    forall n: nat {:trigger computeBlockSize(n)} ::
      0 < computeBlockSize(n) <= MaxBlockSize && (n <= MaxBlockSize ==> n <= computeBlockSize(n))
  }

  /** A launch the kernel can serve: every packed element of a row has a thread of its group. */
  ghost predicate ValidLaunch(p: LaunchPlan)
  {
    && 0 < p.relementsV <= p.blockSize <= MaxBlockSize
    && p.relementsV * p.width == p.relements
    && p.globalSize == p.nelements * p.blockSize
  }

  /** Sizing shared by layernorm_vec_impl<N> and layernorm_impl (N = 1). */
  function Sized(kernel: Kernel, width: nat, nelements: nat, relements: nat,
                 computeBlockSize: nat -> nat): LaunchPlan
    requires width > 0
  {
    var relementsV := relements / width;
    var blockSize := computeBlockSize(relementsV);
    LaunchPlan(kernel, width, nelements, relements, relementsV, blockSize, nelements * blockSize)
  }

  /**
   * layernorm (host entry point) as written: the 4-wide kernel for every multiple of 4, the
   * scalar kernel below 256, otherwise "No kernel for layernorm" and nothing is launched.
   */
  function Dispatch(lens: seq<nat>, computeBlockSize: nat -> nat): (r: Result<LaunchPlan>)
    requires |lens| > 0 && lens[|lens| - 1] > 0
    ensures var relements := lens[|lens| - 1];
      && (r.Ok? && r.value.kernel == VectorKernel <==> relements % VectorWidth == 0)
      && (r.Ok? && r.value.kernel == ScalarKernel <==>
            relements % VectorWidth != 0 && relements < ScalarLimit)
      && (r.Err? <==> relements % VectorWidth != 0 && relements >= ScalarLimit)
      && (r.Err? ==> r.message == "No kernel for layernorm")
      && (r.Ok? ==>
            && r.value.relements == relements
            && r.value.nelements == Product(lens[..|lens| - 1])
            && r.value.nelements * relements == Product(lens)
            && r.value.width == (if r.value.kernel == VectorKernel then VectorWidth else 1)
            && r.value.relementsV == relements / r.value.width
            && r.value.relementsV * r.value.width == relements
            && r.value.blockSize == computeBlockSize(r.value.relementsV)
            && r.value.globalSize == r.value.nelements * r.value.blockSize)
  {
    var relements := lens[|lens| - 1];
    var nelements := Product(lens) / relements;
    assert nelements == Product(lens[..|lens| - 1]) by {
      DivExact(Product(lens[..|lens| - 1]), relements);
    }
    if relements % VectorWidth == 0 then
      Ok(Sized(VectorKernel, VectorWidth, nelements, relements, computeBlockSize))
    else if relements < ScalarLimit then
      Ok(Sized(ScalarKernel, 1, nelements, relements, computeBlockSize))
    else
      Err("No kernel for layernorm")
  }

  /** (a * b) / b == a for positive b. */
  lemma DivExact(a: nat, b: nat)
    requires b > 0
    ensures (a * b) / b == a
  {
    DivModUnique(a * b, b, a, 0);
  }

  /**
   * The plans Dispatch hands to the kernels are valid exactly when relements is not a
   * multiple of 4 above 1024: such a row has more than 256 packed elements, more than any
   * execution group, and breaks the assertion relements_v <= block_size.
   */
  lemma DispatchValidExceptWideRows(lens: seq<nat>, computeBlockSize: nat -> nat)
    requires |lens| > 0 && lens[|lens| - 1] > 0
    requires IsBlockSizer(computeBlockSize)
    requires Dispatch(lens, computeBlockSize).Ok?
    ensures var relements := lens[|lens| - 1];
      (ValidLaunch(Dispatch(lens, computeBlockSize).value)
       <==> !(relements % VectorWidth == 0 && relements > VectorWidth * MaxBlockSize))
  {
    var p := Dispatch(lens, computeBlockSize).value;
    assert computeBlockSize(p.relementsV) > 0;
  }

  /** The smallest such row: 2048 scalars reach the 4-wide kernel with 512 packed elements. */
  lemma WideRowReachesVectorKernel(computeBlockSize: nat -> nat)
    requires IsBlockSizer(computeBlockSize)
    ensures var r := Dispatch([1, 2048], computeBlockSize);
      r.Ok? && r.value.kernel == VectorKernel && r.value.relementsV == 512
      && r.value.relementsV > r.value.blockSize && !ValidLaunch(r.value)
  {
    var r := Dispatch([1, 2048], computeBlockSize);
    assert computeBlockSize(512) <= MaxBlockSize;
  }

  /**
   * Dispatch with the check the kernels rely on: the 4-wide kernel only when the packed row
   * fits one execution group. It agrees with Dispatch wherever Dispatch's plan is valid and
   * rejects the rows on which Dispatch's plan is not.
   */
  function DispatchChecked(lens: seq<nat>, computeBlockSize: nat -> nat): (r: Result<LaunchPlan>)
    requires |lens| > 0 && lens[|lens| - 1] > 0
    requires IsBlockSizer(computeBlockSize)
    ensures r.Ok? ==> ValidLaunch(r.value) && r == Dispatch(lens, computeBlockSize)
    ensures (Dispatch(lens, computeBlockSize).Ok? && ValidLaunch(Dispatch(lens, computeBlockSize).value))
            ==> r == Dispatch(lens, computeBlockSize)
    ensures r.Err? <==> var relements := lens[|lens| - 1];
              (relements % VectorWidth == 0 && relements > VectorWidth * MaxBlockSize)
              || (relements % VectorWidth != 0 && relements >= ScalarLimit)
  {
    var relements := lens[|lens| - 1];
    if relements % VectorWidth == 0 && relements > VectorWidth * MaxBlockSize then
      Err("No kernel for layernorm")
    else
      var d := Dispatch(lens, computeBlockSize);
      if d.Ok? then
        DispatchValidExceptWideRows(lens, computeBlockSize);
        d
      else
        d
  }

  // ---------------------------------------------------------------------------------------
  // Per-thread index arithmetic
  // ---------------------------------------------------------------------------------------

  /** What one thread of the kernel computes from its global id and its local id. */
  datatype ThreadIndex = ThreadIndex(outIdx: nat, baseIdx: nat, inputIdx: nat, inRange: bool)

  /** The index arithmetic at the head of the device function layernorm (fast_div as division). */
  function ThreadOf(i: nat, local: nat, blockSize: nat, relementsV: nat): ThreadIndex
    requires blockSize > 0
  {
    var outIdx := i / blockSize;
    var baseIdx := outIdx * relementsV;
    ThreadIndex(outIdx, baseIdx, baseIdx + local, local < relementsV)
  }

  /** The thread's operand: its element when in range, 0 otherwise (no read). */
  function Load<E>(input: seq<E>, t: ThreadIndex, zero: E): E
    requires t.inRange ==> t.inputIdx < |input|
  {
    if t.inRange then input[t.inputIdx] else zero
  }


  /**
   * The writes of a launch: with local = i mod block_size, the in-range threads among the
   * first nelements * block_size write inside [0, nelements * relements_v), and the element
   * a thread writes belongs to the thread's own group.
   */
  lemma {:induction false} InRangeTargetInBounds(i: nat, blockSize: nat, relementsV: nat, nelements: nat)
    requires 0 < relementsV <= blockSize && i < nelements * blockSize
    requires ThreadOf(i, i % blockSize, blockSize, relementsV).inRange
    ensures var t := ThreadOf(i, i % blockSize, blockSize, relementsV);
      t.inputIdx < nelements * relementsV && t.inputIdx / relementsV == t.outIdx
      && t.inputIdx % relementsV == i % blockSize
  {
    var t := ThreadOf(i, i % blockSize, blockSize, relementsV);
    DivBelow(i, blockSize, nelements);
    DivModUnique(t.inputIdx, relementsV, t.outIdx, i % blockSize);
    MulLe(t.outIdx + 1, nelements, relementsV);
  }

  /** Two different in-range threads never write the same element. */
  lemma {:induction false} InRangeTargetsDisjoint(i1: nat, i2: nat, blockSize: nat, relementsV: nat)
    requires 0 < relementsV <= blockSize && i1 != i2
    requires ThreadOf(i1, i1 % blockSize, blockSize, relementsV).inRange
    requires ThreadOf(i2, i2 % blockSize, blockSize, relementsV).inRange
    ensures ThreadOf(i1, i1 % blockSize, blockSize, relementsV).inputIdx
         != ThreadOf(i2, i2 % blockSize, blockSize, relementsV).inputIdx
  {
    var t1 := ThreadOf(i1, i1 % blockSize, blockSize, relementsV);
    var t2 := ThreadOf(i2, i2 % blockSize, blockSize, relementsV);
    if t1.inputIdx == t2.inputIdx {
      DivModUnique(t1.inputIdx, relementsV, t1.outIdx, i1 % blockSize);
      DivModUnique(t1.inputIdx, relementsV, t2.outIdx, i2 % blockSize);
    }
  }

  /** Every element of [0, nelements * relements_v) has an in-range thread that writes it. */
  lemma {:induction false} EveryElementHasWriter(j: nat, blockSize: nat, relementsV: nat, nelements: nat)
    requires 0 < relementsV <= blockSize && j < nelements * relementsV
    ensures var i := (j / relementsV) * blockSize + j % relementsV;
      var t := ThreadOf(i, i % blockSize, blockSize, relementsV);
      i < nelements * blockSize && t.inRange && t.inputIdx == j
  {
    var q, r := j / relementsV, j % relementsV;
    var i := q * blockSize + r;
    DivModUnique(i, blockSize, q, r);
    DivBelow(j, relementsV, nelements);
    MulLe(q + 1, nelements, blockSize);
  }

  // ---------------------------------------------------------------------------------------
  // The kernel's masked write, launched over all threads
  // ---------------------------------------------------------------------------------------

  function Min(a: nat, b: nat): nat
  {
    if a <= b then a else b
  }

  /** The row a packed element belongs to. */
  function RowOf(j: nat, relementsV: nat): nat
    requires relementsV > 0
  {
    j / relementsV
  }

  /** How many leading elements the threads 0 .. i-1 have written. */
  ghost function Covered(i: nat, blockSize: nat, relementsV: nat): nat
    requires blockSize > 0
  {
    (i / blockSize) * relementsV + Min(i % blockSize, relementsV)
  }

  /** Thread i writes exactly element Covered(i) when in range, and nothing otherwise. */
  lemma CoveredStep(i: nat, blockSize: nat, relementsV: nat)
    requires 0 < relementsV <= blockSize
    ensures var t := ThreadOf(i, i % blockSize, blockSize, relementsV);
      && Covered(i + 1, blockSize, relementsV)
           == Covered(i, blockSize, relementsV) + (if t.inRange then 1 else 0)
      && (t.inRange ==> t.inputIdx == Covered(i, blockSize, relementsV))
  {
    var q, r := i / blockSize, i % blockSize;
    if r + 1 < blockSize {
      DivModUnique(i + 1, blockSize, q, r + 1);
    } else {
      DivModUnique(i + 1, blockSize, q + 1, 0);
    }
  }

  /** Once all nelements * block_size threads have run, every element is written. */
  lemma CoveredAll(nelements: nat, blockSize: nat, relementsV: nat)
    requires 0 < relementsV <= blockSize
    ensures Covered(nelements * blockSize, blockSize, relementsV) == nelements * relementsV
  {
    DivModUnique(nelements * blockSize, blockSize, nelements, 0);
  }

  /**
   * The device function layernorm for one thread: it loads its element (0 when out of
   * range) and, when in range, writes normalize(out_idx, x) at input_idx; an out-of-range
   * thread writes nothing.
   */
  method KernelThread<E>(i: nat, local: nat, blockSize: nat, relementsV: nat, input: seq<E>,
                         output: array<E>, zero: E, normalize: (nat, E) -> E)
    requires blockSize > 0 && |input| == output.Length
    requires ThreadOf(i, local, blockSize, relementsV).inRange ==>
               ThreadOf(i, local, blockSize, relementsV).inputIdx < output.Length
    modifies output
    ensures var t := ThreadOf(i, local, blockSize, relementsV);
      output[..] == if t.inRange then old(output[..])[t.inputIdx := normalize(t.outIdx, input[t.inputIdx])]
                    else old(output[..])
  {
    var t := ThreadOf(i, local, blockSize, relementsV);
    var x := Load(input, t, zero);
    if t.inRange {
      output[t.inputIdx] := normalize(t.outIdx, x);
    }
  }

  /**
   * gs_launch(nelements * block_size, block_size) of the device function layernorm, run
   * thread after thread with local = i mod block_size. Afterwards every element of the
   * output holds the normalisation of the input element at the same position with respect
   * to its own row.
   */
  method RunKernel<E>(plan: LaunchPlan, input: seq<E>, output: array<E>, zero: E,
                      normalize: (nat, E) -> E)
    requires ValidLaunch(plan)
    requires |input| == output.Length == plan.nelements * plan.relementsV
    modifies output
    ensures forall j: nat :: j < output.Length ==>
              output[j] == normalize(RowOf(j, plan.relementsV), input[j])
  {
    var bs, rv := plan.blockSize, plan.relementsV;
    var i := 0;
    ghost var c := 0;
    while i < plan.globalSize
      invariant 0 <= i <= plan.globalSize
      invariant c == Covered(i, bs, rv) && c <= output.Length
      invariant forall j: nat :: j < c ==> output[j] == normalize(RowOf(j, rv), input[j])
      invariant forall j :: c <= j < output.Length ==> output[j] == old(output[j])
    {
      CoveredStep(i, bs, rv);
      ghost var t := ThreadOf(i, i % bs, bs, rv);
      if t.inRange {
        InRangeTargetInBounds(i, bs, rv, plan.nelements);
      }
      KernelThread(i, i % bs, bs, rv, input, output, zero, normalize);
      if t.inRange {
        assert t.inputIdx == c && RowOf(c, rv) == t.outIdx;
        c := c + 1;
      }
      i := i + 1;
    }
    CoveredAll(plan.nelements, bs, rv);
    assert c == output.Length;
  }
}
