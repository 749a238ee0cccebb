/**
 * GPU side of the loop operator (src/targets/gpu/loop.cpp): which of hip_loop's inputs are
 * forwarded to the loop's own shape computation, and how gpu_loop clears the slots of the
 * iterations that did not run.
 *
 * A buffer is modelled as an array of bytes; hipMemset becomes a fill of a byte range.
 */
module GpuLoop {

  /**
   * The input a forwarded position k comes from: the first input, the third, then the fifth
   * onwards.
   */
  function SourceIndex(k: nat): nat
  {
    if k == 0 then 0 else if k == 1 then 2 else k + 2
  }

  /**
   * hip_loop::compute_shape before it delegates to the loop operator: the last two inputs
   * are popped, then the input at index 3 and the one at index 1 are erased. With fewer
   * than 6 inputs the second erase would be out of range, so 6 are needed.
   */
  method ComputeShapeInputs<S>(inputs: seq<S>) returns (forwarded: seq<S>)
    requires |inputs| >= 6
    ensures |forwarded| == |inputs| - 4
    ensures forall k :: 0 <= k < |forwarded| ==> forwarded[k] == inputs[SourceIndex(k)]
  {
    var v := inputs;
    v := v[..|v| - 1];          // pop_back
    v := v[..|v| - 1];          // pop_back
    v := v[..3] + v[4..];       // erase(begin() + 3)
    v := v[..1] + v[2..];       // erase(begin() + 1)
    forwarded := v;
  }

  /** The forwarded position an input ends up at, for the inputs that are forwarded. */
  function TargetIndex(m: nat): nat
  {
    if m < 2 then 0 else if m < 4 then 1 else m - 2
  }

  /**
   * The forwarded positions pick, in order and once each, exactly the inputs other than
   * index 1, index 3 and the last two.
   */
  lemma ForwardedSelection(n: nat)
    requires n >= 6
    ensures forall k, l :: 0 <= k < l < n - 4 ==> SourceIndex(k) < SourceIndex(l)
    ensures forall k :: 0 <= k < n - 4 ==>
              var m := SourceIndex(k); m < n - 2 && m != 1 && m != 3 && TargetIndex(m) == k
    ensures forall m: nat :: m < n - 2 && m != 1 && m != 3 ==>
              TargetIndex(m) < n - 4 && SourceIndex(TargetIndex(m)) == m
  {
  }

  /**
   * Whether set_zero clears byte b of an output of the given size: only when iter is below
   * max_iter_num, and then the bytes from iter * size up to max_iter_num * size, where size
   * is the output's byte count divided by max_iter_num.
   */
  ghost predicate Cleared(iter: int, maxIterNum: int, bytes: nat, b: int)
  {
    && 0 <= iter < maxIterNum
    && var size := bytes / maxIterNum;
       iter * size <= b < maxIterNum * size
  }

  /** hipMemset as a fill: bytes start .. start+count-1 become 0, the others keep their value. */
  method Memset(buffer: array<bv8>, start: nat, count: nat)
    requires start + count <= buffer.Length
    modifies buffer
    ensures forall b :: 0 <= b < buffer.Length ==>
              buffer[b] == if start <= b < start + count then 0 else old(buffer[b])
  {
    var b := start;
    while b < start + count
      invariant start <= b <= start + count
      invariant forall c :: 0 <= c < buffer.Length ==>
                  buffer[c] == if start <= c < b then 0 else old(buffer[c])
    {
      buffer[b] := 0;
      b := b + 1;
    }
  }

  /** The bytes set_zero clears stay inside the output, and their count is size * elem_num. */
  lemma ClearedRange(iter: int, maxIterNum: int, bytes: nat)
    requires 0 <= iter < maxIterNum
    ensures var size := bytes / maxIterNum;
      && iter * size + size * (maxIterNum - iter) == maxIterNum * size
      && maxIterNum * size <= bytes
  {
    var size := bytes / maxIterNum;
    assert size * (maxIterNum - iter) == size * maxIterNum - size * iter;
  }

  /** gpu_loop: the host/device glue the generic loop runner calls back into. */
  class GpuLoop {
    const maxIterNum: int

    constructor (maxIterNum: int)
      ensures this.maxIterNum == maxIterNum
    {
      this.maxIterNum := maxIterNum;
    }

    /**
     * gpu_loop::set_zero: when iteration iter stopped before max_iter_num, each output's
     * byte range [iter * size, max_iter_num * size) is cleared; every other byte, and every
     * byte when iter >= max_iter_num, is left as it was.
     */
    method SetZero(outputs: seq<array<bv8>>, iter: int)
      requires iter < maxIterNum ==> 0 <= iter
      requires forall i, j :: 0 <= i < j < |outputs| ==> outputs[i] != outputs[j]
      modifies set k | 0 <= k < |outputs| :: outputs[k]
      ensures forall k, b :: 0 <= k < |outputs| && 0 <= b < outputs[k].Length ==>
                outputs[k][b] == if Cleared(iter, maxIterNum, outputs[k].Length, b) then 0
                                 else old(outputs[k][b])
    {
      if iter >= maxIterNum {
        return;
      }
      var elemNum := maxIterNum - iter;
      var k := 0;
      while k < |outputs|
        invariant 0 <= k <= |outputs|
        invariant forall m, b :: 0 <= m < k && 0 <= b < outputs[m].Length ==>
                    outputs[m][b] == if Cleared(iter, maxIterNum, outputs[m].Length, b) then 0
                                     else old(outputs[m][b])
        invariant forall m :: k <= m < |outputs| ==> outputs[m][..] == old(outputs[m][..])
      {
        var out := outputs[k];
        var size := out.Length / maxIterNum;
        ClearedRange(iter, maxIterNum, out.Length);
        Memset(out, iter * size, size * elemNum);
        k := k + 1;
      }
    }

    /** gpu_loop::append: the GPU loop keeps no per-iteration outputs, so nothing changes. */
    method Append(iterationOutputs: seq<array<bv8>>, concatenatedOutputs: seq<array<bv8>>, iter: int)
      ensures forall k :: 0 <= k < |concatenatedOutputs| ==>
                concatenatedOutputs[k][..] == old(concatenatedOutputs[k][..])
    {
    }
  }
}
