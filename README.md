# MIGraphX GPU core, modelled in Dafny

This project models six pieces of MIGraphX, AMD's graph compiler for machine-learning
models, and proves properties of them:

- **layernorm** (`src/targets/gpu/device/layernorm.cpp`). The GPU layer-normalisation kernel.
  The host decides between a 4-wide packed kernel and a scalar kernel, and sizes the launch
  with `compute_block_size`. Each device thread uses its global id to find its row
  (`out_idx`) and its element (`input_idx`). Threads past the end of the row are masked
  out. The lane helpers `vec_transform`, `vec_reduce` and `auto_block_reduce` are modelled too.
- **reduce_op** (`src/include/migraphx/op/reduce_op.hpp`). The reference CPU implementation
  shared by the reduction operators (`reduce_sum`, `reduce_mean` and the rest). It covers:
  - `tune_axes`: which axes are reduced;
  - `normalize_compute_shape`: the output shape;
  - `tune_dims`;
  - `reduce`: the fold for one output index over its batch of input elements;
  - `compute`: the fold for every output element.
- **permutation** (`src/include/migraphx/permutation.hpp`). `reorder_dims`;
  `sort_permutation`, an argsort with `std::sort`; `invert_permutation`; and
  `find_permutation`, which orders strides from largest to smallest.
- **compile_ops** (`src/targets/gpu/compile_ops.cpp`). The GPU compile-and-tune pass.
  - Every `gpu::precompile_op` instruction gets a `compile_plan`.
  - A plan with a tuning configuration compiles one candidate per solution and benchmarks
    them with `time_op`.
  - A `problem_cache` records the fastest solution per (operator name, problem). A null
    entry means "being tuned", and a later plan with the same problem waits for the next
    round.
  - `apply` runs two rounds of `compile_manager::compile` and expects no plan to be left.
- **tensor_view** (`src/include/migraph/tensor_view.hpp`). A non-owning view of a buffer
  through a shape: element access, `front`/`back`, iterators and equality.
- **loop** (`src/targets/gpu/loop.cpp`). The GPU side of the loop operator:
  - the inputs `hip_loop::compute_shape` forwards;
  - `gpu_loop::set_zero`, which clears the output slots of iterations that did not run;
  - the no-op `gpu_loop::append`.

Objects whose fields the source updates in place are classes:
- `problem_cache` is `CompileOps.ProblemCache`;
- `compile_manager` is `CompileOps.CompileManager`;
- `tensor_view` is `TensorView.View`;
- `gpu_loop` is `GpuLoop.GpuLoop`.

Loops become methods with invariants. Each method is proved against a specification
function, and the properties are proved about those functions.

Shared modules:
- `Shapes` (`shapes.dfy`): standard row-major shapes. It has the element count, the
  multi-index to position map `Index` and its inverse `Unravel`.
- `Wrappers` (`wrappers.dfy`): `Option`, `Result` and `Outcome`. A thrown exception is an
  `Err`/`Fail` carrying the source's message.
- `Arith` (`arith.dfy`): helper lemmas on multiplication and division.

External behaviour is passed in as parameters:
- compilation (`compileFn`) and timing (`timeOp`);
- `get_tuning_config` (`getConfig`);
- `compute_block_size`;
- the floating-point normalisation of a row (`normalize`);
- the reduction's `op()`, `init()`, `input()` and `output()`;
- `float_equal`.

## Model

| member | source | states |
|---|---|---|
| LayerNorm.VecTransform | src/targets/gpu/device/layernorm.cpp:36-49 | a scalar becomes f(x); a packed value keeps its width and every lane k becomes f(x[k]) |
| LayerNorm.VecReduce | src/targets/gpu/device/layernorm.cpp:51-64 | a scalar is returned unchanged and init is ignored; a packed value is the left fold of op over its lanes, lane 0 first, starting from init |
| LayerNorm.AutoBlockReduceFold | src/targets/gpu/device/layernorm.cpp:66-72 | the block result is compressed to one scalar by folding its lanes with the same op, starting from 0 |
| LayerNorm.FoldLeftAppend | src/targets/gpu/device/layernorm.cpp:57-64 | folding a concatenation equals folding the second part from the first part's result |
| LayerNorm.FoldSumOfCopies | src/targets/gpu/device/layernorm.cpp:84-88 | summing n equal lanes v from 0, as mean does for a broadcast value, gives n * v |
| LayerNorm.Sized | src/targets/gpu/device/layernorm.cpp:116-118 | the sizing both kernels share: relements_v is relements divided by the vector width, block_size is compute_block_size(relements_v), and nelements * block_size threads are launched (also lines 139-140 with width 1) |
| LayerNorm.Dispatch | src/targets/gpu/device/layernorm.cpp:152-166 | the 4-wide kernel iff relements is a multiple of 4; the scalar kernel iff it is not and is below 256; otherwise "No kernel for layernorm". Also: nelements is the product of the leading lengths; width is 4 for the 4-wide kernel and 1 for the scalar one; relements_v == relements / width, and relements_v * width == relements; block_size == compute_block_size(relements_v); the global size is nelements * block_size |
| LayerNorm.DispatchValidExceptWideRows | src/targets/gpu/device/layernorm.cpp:116-120 | a plan Dispatch returns satisfies the kernel's assertion relements_v <= block_size (with 0 < relements_v and block_size <= 256) iff relements is not a multiple of 4 above 1024 |
| LayerNorm.WideRowReachesVectorKernel | src/targets/gpu/device/layernorm.cpp:160-161 | lengths [1, 2048] reach the 4-wide kernel with 512 packed elements per row, more than any block, so the launch is invalid |
| LayerNorm.DispatchChecked | src/targets/gpu/device/layernorm.cpp:139-142 | every plan it returns is valid and equals Dispatch's; wherever Dispatch's plan is valid it agrees with Dispatch; it errs exactly on wide multiples of 4 and on non-multiples of 4 from 256 up |
| LayerNorm.ThreadOf | src/targets/gpu/device/layernorm.cpp:78-82 | the thread's indices: out_idx = i / block_size, base_idx = out_idx * relements_v, input_idx = base_idx + local, in range iff local < relements_v |
| LayerNorm.Load | src/targets/gpu/device/layernorm.cpp:92 | the operand x: the input element at input_idx for an in-range thread, and 0 without a read otherwise |
| LayerNorm.InRangeTargetInBounds | src/targets/gpu/device/layernorm.cpp:78-82 | an in-range thread among the nelements * block_size launched writes inside [0, nelements * relements_v), at an element of its own row out_idx |
| LayerNorm.InRangeTargetsDisjoint | src/targets/gpu/device/layernorm.cpp:78-82 | two different in-range threads write different elements |
| LayerNorm.EveryElementHasWriter | src/targets/gpu/device/layernorm.cpp:78-82 | every element of the output has an in-range thread, within the launch, that writes it |
| LayerNorm.CoveredStep | src/targets/gpu/device/layernorm.cpp:78-82 | thread i, in global order, writes exactly the next element not yet written when it is in range, and nothing otherwise |
| LayerNorm.CoveredAll | src/targets/gpu/device/layernorm.cpp:122 | after all nelements * block_size threads, nelements * relements_v elements are written |
| LayerNorm.KernelThread | src/targets/gpu/device/layernorm.cpp:74-101 | an in-range thread writes normalize(out_idx, input[input_idx]) at input_idx and changes nothing else; an out-of-range thread changes nothing |
| LayerNorm.RunKernel | src/targets/gpu/device/layernorm.cpp:122-126 | after the launch of a valid plan, every output element j holds normalize of input[j] for its own row j / relements_v |
| ReduceOp.TuneAxes | src/include/migraphx/op/reduce_op.hpp:97-107 | the operator's own axes when there are any, otherwise 0, 1, ..., n-1 |
| ReduceOp.TunedAxesCover | src/include/migraphx/op/reduce_op.hpp:97-107 | for axes already normalised to the rank, the tuned axes are dimensions; with no axes every dimension is tuned, otherwise exactly the given ones |
| ReduceOp.AssignAxes | src/include/migraphx/op/reduce_op.hpp:124-127 | each position listed among the axes takes the new value, and every other position keeps its value |
| ReduceOp.NormalizeComputeShape | src/include/migraphx/op/reduce_op.hpp:116-142 | errs iff there is not exactly one input. Otherwise the result has the input's type and rank. On every tuned axis it has length 1 (static) or the range {1, 1} (dynamic); every other dimension is kept |
| ReduceOp.TuneDims | src/include/migraphx/op/reduce_op.hpp:144-153 | out_lens takes in_lens's entry on each tuned axis and keeps its own elsewhere |
| ReduceOp.DataIndexInBounds | src/include/migraphx/op/reduce_op.hpp:166-168 | the index read for a batch index lies inside the input; it agrees with the output index off the reduced axes and with the batch index on them |
| ReduceOp.ReadPosition | src/include/migraphx/op/reduce_op.hpp:166-168 | the buffer position read at a batch position lies below the input's element count |
| ReduceOp.OverlayForgets | src/include/migraphx/op/reduce_op.hpp:164-167 | reusing data_idx across iterations is harmless: overwriting the tuned axes hides what the previous batch index left there |
| ReduceOp.ReadStep | src/include/migraphx/op/reduce_op.hpp:166-168 | the element read at batch position p is at the position ReadPosition names |
| ReduceOp.OutLens | src/include/migraphx/op/reduce_op.hpp:132-139 | the computed output lengths: the input's, with 1 on every tuned axis |
| ReduceOp.BatchLens | src/include/migraphx/op/reduce_op.hpp:181-182 | the batch shape's lengths: 1 on every axis except the tuned ones, which take the input's length |
| ReduceOp.BatchFold | src/include/migraphx/op/reduce_op.hpp:165-170 | the accumulator after the first m batch indices in row-major order: init(), then op(input(x), val) for each element read |
| ReduceOp.Reduce | src/include/migraphx/op/reduce_op.hpp:155-174 | the output element at out_idx becomes output() of the fold, from init(), of op(input(x), val) over the batch in row-major order; every other output element is unchanged |
| ReduceOp.ReadsDistinct | src/include/migraphx/op/reduce_op.hpp:166-168 | distinct batch positions read distinct input elements |
| ReduceOp.ReadsEverything | src/include/migraphx/op/reduce_op.hpp:166-168 | every input element that agrees with the output index off the reduced axes is read at some batch position |
| ReduceOp.FoldVisitsEachOnce | src/include/migraphx/op/reduce_op.hpp:155-174 | each input element sharing the output index's coordinates off the reduced axes is read exactly once by the fold |
| ReduceOp.Compute | src/include/migraphx/op/reduce_op.hpp:176-192 | the result has the computed shape's element count (the input's lengths with 1 on tuned axes); the element at each flat position is the reduce fold for that position's multi-index |
| ReduceOp.AllOnesSingleElement | src/include/migraphx/op/reduce_op.hpp:181 | lengths that are all 1 hold one element, at the all-zero multi-index |
| ReduceOp.ReduceAllAxesShapes | src/include/migraphx/op/reduce_op.hpp:179-183 | with no axes the output has one element, at the all-zero index, and the batch shape is the input shape |
| ReduceOp.ReduceAllAxesIsSum | src/include/migraphx/op/reduce_op.hpp:194-204 | with no axes, init() zero, identity input()/output() and op +, the fold over the first m batch positions is the sum of the first m input elements, so the result is the sum of the whole input |
| Shapes.Elements | src/include/migraph/tensor_view.hpp:23 | the element count is the product of the lengths, and 0 for a shape without lengths |
| Shapes.Index | src/include/migraph/tensor_view.hpp:33-34 | shape::index of a standard shape: the row-major position of a multi-index, last axis fastest |
| Shapes.Unravel | src/include/migraph/tensor_view.hpp:57-67 | the multi-index of a flat position has the shape's rank |
| Shapes.IndexInRange | src/include/migraph/tensor_view.hpp:29-35 | an index inside the shape on every axis sits below the element count |
| Shapes.IndexOfUnravel | src/include/migraph/tensor_view.hpp:57-67 | the i-th multi-index is inside the shape and sits at position i |
| Shapes.UnravelOfIndex | src/include/migraphx/op/reduce_op.hpp:185-187 | the multi-index of an in-bounds index's position is that index |
| Shapes.IndexInjective | src/include/migraph/tensor_view.hpp:29-35 | two in-bounds multi-indices at the same position are equal |
| Permutation.ReorderDims | src/include/migraphx/permutation.hpp:18-28 | the result has the length of dims, and result[i] == dims[permutation[i]] |
| Permutation.SwapIsPermutation | src/include/migraphx/permutation.hpp:35 | exchanging two adjacent entries of a permutation gives a permutation |
| Permutation.InsertingStep | src/include/migraphx/permutation.hpp:35 | under a strict weak order, moving the inserted index left past an index it precedes keeps the insertion invariant |
| Permutation.InsertingDone | src/include/migraphx/permutation.hpp:35 | an insertion that stops leaves the prefix sorted |
| Permutation.SwapAdjacent | src/include/migraphx/permutation.hpp:35 | the index array is the old one with two adjacent entries exchanged |
| Permutation.InsertIndex | src/include/migraphx/permutation.hpp:35 | the array stays a permutation, and a sorted prefix of length i becomes sorted up to i + 1 |
| Permutation.SortPermutation | src/include/migraphx/permutation.hpp:30-37 | for a strict weak order the result is a permutation of 0 .. n-1, and no later index's value precedes an earlier one's under op |
| Permutation.Asymmetric | src/include/migraphx/permutation.hpp:35 | a strict weak order never relates two values both ways |
| Permutation.LessIsStrictWeakOrder | src/include/migraphx/permutation.hpp:41 | std::less is a strict weak order, as std::sort demands |
| Permutation.GreaterIsStrictWeakOrder | src/include/migraphx/permutation.hpp:46 | std::greater is a strict weak order, as std::sort demands |
| Permutation.IncreasingInRangeIsIdentity | src/include/migraphx/permutation.hpp:39-42 | a strictly increasing list of n values in 0 .. n-1 is the identity |
| Permutation.AtLeastPosition | src/include/migraphx/permutation.hpp:39-42 | in a strictly increasing list of naturals, the entry at position k is at least k |
| Permutation.AtMostPosition | src/include/migraphx/permutation.hpp:39-42 | in a strictly increasing list below n, the entry at position k is at most k |
| Permutation.InvertPermutation | src/include/migraphx/permutation.hpp:39-42 | the argsort of a permutation is a permutation and its inverse on both sides: p[q[k]] == k and q[p[i]] == i |
| Permutation.InverseTwice | src/include/migraphx/permutation.hpp:39-42 | inverting the inverse gives back the permutation |
| Permutation.FindPermutation | src/include/migraphx/permutation.hpp:44-47 | a permutation under which the strides never increase |
| CompileOps.KeyOf | src/targets/gpu/compile_ops.cpp:102-105 | create_key: the pair of the operator's name and the config's problem |
| CompileOps.MarkNeverOverwrites | src/targets/gpu/compile_ops.cpp:91-94 | mark adds only its key, with a null value when absent, and every existing entry keeps its value |
| CompileOps.ProblemCache.constructor | src/targets/gpu/compile_ops.cpp:106 | a new cache is empty |
| CompileOps.ProblemCache.Has | src/targets/gpu/compile_ops.cpp:82-85 | has() holds exactly when mark would leave the cache unchanged |
| CompileOps.ProblemCache.Get | src/targets/gpu/compile_ops.cpp:95-101 | none exactly when has() is false, otherwise the stored value, null included |
| CompileOps.ProblemCache.Insert | src/targets/gpu/compile_ops.cpp:86-90 | for a non-null solution, the key now maps to it and no other entry changes |
| CompileOps.ProblemCache.Mark | src/targets/gpu/compile_ops.cpp:91-94 | the cache becomes Marked of the old cache: an absent key gets null, and a present key keeps its value |
| CompileOps.Resize | src/targets/gpu/compile_ops.cpp:147 | std::vector::resize: the result has the requested length |
| CompileOps.AddOne | src/targets/gpu/compile_ops.cpp:135-167 | only the plan's results change, and every queued job targets an existing slot of this plan |
| CompileOps.AddCompiles | src/targets/gpu/compile_ops.cpp:135-167 | No config: one slot and one compile of null; the cache is unchanged. Problem cached as null: nothing. Cached non-null: one slot compiling that solution. Not cached: the problem is marked, with one slot and one compile per solution, in order |
| CompileOps.AddAll | src/targets/gpu/compile_ops.cpp:236-239 | every plan is staged in order; only results change, and every job targets an existing slot |
| CompileOps.Compiled | src/targets/gpu/compile_ops.cpp:123-131 | insert_compiles' job: compiled_result of the compile and the instruction, or nullopt when compile throws |
| CompileOps.ApplyJob | src/targets/gpu/compile_ops.cpp:120-133 | the job's slot receives the compiled result, or nullopt when compile fails; every other slot of every plan keeps its result, and no plan's number of results changes |
| CompileOps.RunJobs | src/targets/gpu/compile_ops.cpp:240 | running the queue changes only the results, never their number |
| CompileOps.AddAllJobsDistinct | src/targets/gpu/compile_ops.cpp:135-167 | the queue the add_compiles loop builds never targets the same slot of the same plan twice, and every job names one of the plans staged |
| CompileOps.RunJobsWrites | src/targets/gpu/compile_ops.cpp:120-133 | for a queue with distinct targets, each job's slot ends up holding the compile of its solution, whatever the order, and every slot no job targets keeps its result |
| CompileOps.AddAllUnfold | src/targets/gpu/compile_ops.cpp:236-239 | staging one more plan runs its add_compiles against the cache the earlier plans left |
| CompileOps.Times | src/targets/gpu/compile_ops.cpp:182-190 | one time per result |
| CompileOps.FirstMin | src/targets/gpu/compile_ops.cpp:191 | the first position of a smallest time: no time is smaller, and every earlier one is larger |
| CompileOps.MinIndex | src/targets/gpu/compile_ops.cpp:191 | std::min_element: a position no time is below, with every earlier time larger |
| CompileOps.TimeResults | src/targets/gpu/compile_ops.cpp:182-190 | each result's time_op, and MaxTime for a failed compile |
| CompileOps.Chosen | src/targets/gpu/compile_ops.cpp:191 | the index std::min_element returns over the times of several results |
| CompileOps.BenchmarkCache | src/targets/gpu/compile_ops.cpp:192-193 | the cache after benchmark as written: the chosen solution is inserted on the several-results path only, and a single result leaves the cache as it was |
| CompileOps.BenchmarkResult | src/targets/gpu/compile_ops.cpp:168-197 | what benchmark returns or throws; a returned result is one of the plan's compiled results, and on the several-results path it is the chosen one |
| CompileOps.SolutionsNonNullChosen | src/targets/gpu/compile_ops.cpp:86-90 | a plan whose solutions are all non-null meets insert's assertion on the chosen solution |
| CompileOps.Benchmark | src/targets/gpu/compile_ops.cpp:168-197 | Requires only insert's assertion, on the chosen solution. No results, or one failed result: "No configs to tune". One result: it is returned. Several results without a config: "Multiple kernels without config". Otherwise the first fastest is chosen, its solution is inserted in the cache, and it is returned unless its compile failed |
| CompileOps.BenchmarkPicksFastest | src/targets/gpu/compile_ops.cpp:182-191 | if some compile succeeded with a time below MaxTime, the chosen one succeeded, is no slower, and every earlier result is slower |
| CompileOps.KeptExactly | src/targets/gpu/compile_ops.cpp:250-254 | remove_if keeps exactly the plans without results, in order, and distributes over concatenation |
| CompileOps.KeptMembers | src/targets/gpu/compile_ops.cpp:250-254 | a kept plan has no results, and every plan without results is kept |
| CompileOps.CompileManager.constructor | src/targets/gpu/compile_ops.cpp:216-220 | a new manager has an empty cache and no plans |
| CompileOps.CompileManager.AddPlan | src/targets/gpu/compile_ops.cpp:222-226 | the plan is appended |
| CompileOps.CompileManager.UpdateConfigs | src/targets/gpu/compile_ops.cpp:228-231 | every plan gets its instruction's tuning config, and nothing else changes |
| CompileOps.CompileManager.AddAllCompiles | src/targets/gpu/compile_ops.cpp:235-239 | the plans, queue and cache are AddAll of the old plans and cache |
| CompileOps.CompileManager.RunCompiles | src/targets/gpu/compile_ops.cpp:240 | the plans are the queue run in order over the old plans |
| CompileOps.ReplaceAll | src/targets/gpu/compile_ops.cpp:243-248 | the replace loop over the first n plans, skipping plans without results and stopping at the first failing benchmark; it never drops a cache entry |
| CompileOps.ReplaceAllFixed | src/targets/gpu/compile_ops.cpp:243-248 | the same loop with the corrected benchmark; it never drops a cache entry |
| CompileOps.RoundFixed | src/targets/gpu/compile_ops.cpp:233-255 | one compile with the corrected benchmark: add, run, the corrected replace loop, then remove_if |
| CompileOps.Kept | src/targets/gpu/compile_ops.cpp:250-254 | the plans remove_if keeps: no more than there were, and none with results |
| CompileOps.Round | src/targets/gpu/compile_ops.cpp:233-255 | one compile as a function of the plans and cache: a successful round keeps no more plans than it started with, all without results, and loses no cache entry |
| CompileOps.CompileManager.ReplacePlans | src/targets/gpu/compile_ops.cpp:242-248 | for plans whose chosen solutions meet insert's assertion, the loop passes iff every plan with results benchmarks successfully, and the cache is then the replace result; otherwise it fails with the first failing benchmark's message |
| CompileOps.CompileManager.EraseCompiled | src/targets/gpu/compile_ops.cpp:250-254 | the plans become exactly the old plans without results, in order |
| CompileOps.CompileManager.Compile | src/targets/gpu/compile_ops.cpp:233-255 | for plans whose compiled forms meet insert's assertion, the outcome passes iff the round does; then the plans and cache are the round's; otherwise it fails with the round's message |
| CompileOps.ReplaceStopsAtFailure | src/targets/gpu/compile_ops.cpp:243-248 | the first failing benchmark's message is the result of the whole replace loop |
| CompileOps.ErrPersists | src/targets/gpu/compile_ops.cpp:243-248 | once the replace loop has failed, further plans leave the failure unchanged |
| CompileOps.FirstRoundAdds | src/targets/gpu/compile_ops.cpp:136-160 | for fresh plans and an empty cache: one slot without a config, one slot per solution for the first plan of a problem, and none for a later plan of it; every cache entry is null and is the key of some configured plan |
| CompileOps.FirstRoundSolves | src/targets/gpu/compile_ops.cpp:168-197 | when configs offer at least two solutions and the replace loop succeeds, every configured plan's problem is solved (non-null) in the cache |
| CompileOps.SolvedPlansResolve | src/targets/gpu/compile_ops.cpp:141-148 | plans whose problems are all solved each get exactly one slot, and the cache is unchanged |
| CompileOps.NothingKept | src/targets/gpu/compile_ops.cpp:250-254 | if every plan has results, nothing is kept |
| CompileOps.KeptAreSolved | src/targets/gpu/compile_ops.cpp:250-254 | every plan a first round keeps has no results and a config whose problem is solved |
| CompileOps.Ran | src/targets/gpu/compile_ops.cpp:236-240 | the plans after add_compiles and the compiles: same count, and only their results differ |
| CompileOps.SecondRoundEmpties | src/targets/gpu/compile_ops.cpp:271-273 | a round over plans whose problems are all solved keeps no plan |
| CompileOps.TwoRoundsResolveAll | src/targets/gpu/compile_ops.cpp:270-274 | for fresh plans and an empty cache, with every config offering at least two solutions: if both rounds succeed, no plan is left |
| CompileOps.SharedFirstPlanAdds | src/targets/gpu/compile_ops.cpp:150-159 | the first of two plans sharing a one-solution problem marks it and queues its one compile |
| CompileOps.SharedFirstAdds | src/targets/gpu/compile_ops.cpp:141-146 | the second plan finds the problem marked null and queues nothing |
| CompileOps.SharedFirstRun | src/targets/gpu/compile_ops.cpp:240 | the single compile fills the first plan's only slot |
| CompileOps.SharedFirstReplace | src/targets/gpu/compile_ops.cpp:172-177 | replacing the first plan's single result leaves the problem marked null |
| CompileOps.SharedFirstRound | src/targets/gpu/compile_ops.cpp:233-255 | the first round succeeds, drops the first plan, keeps the second, and leaves the problem null |
| CompileOps.SharedSecondAdds | src/targets/gpu/compile_ops.cpp:141-146 | in the second round the waiting plan finds its problem still null and queues nothing |
| CompileOps.SharedSecondRound | src/targets/gpu/compile_ops.cpp:273 | the second round succeeds and still keeps the waiting plan |
| CompileOps.SingleSolutionLeftOver | src/targets/gpu/compile_ops.cpp:271-274 | both rounds succeed on the shared one-solution problem, yet a plan is left, contrary to the closing assertion |
| CompileOps.BenchmarkCacheFixed | src/targets/gpu/compile_ops.cpp:172-177 | for a single result of a plan whose config offers one solution, the problem's key ends up holding that solution or the value it already held; no entry is lost |
| CompileOps.FirstRoundSolvesFixed | src/targets/gpu/compile_ops.cpp:168-197 | with the corrected benchmark and at least one solution per config, a successful first round solves every configured problem |
| CompileOps.TwoRoundsResolveAllFixed | src/targets/gpu/compile_ops.cpp:270-274 | with the corrected benchmark and at least one solution per config, two successful rounds over fresh plans leave no plan |
| CompileOps.SingleSolutionResolvedFixed | src/targets/gpu/compile_ops.cpp:271-274 | with the corrected benchmark the shared one-solution problem leaves no plan after two rounds |
| CompileOps.Precompiled | src/targets/gpu/compile_ops.cpp:263-269 | apply's walk: one plan, without config or results, for each gpu::precompile_op among the first n instructions, in order |
| CompileOps.PrecompiledSelects | src/targets/gpu/compile_ops.cpp:263-269 | the walk adds one plan per gpu::precompile_op, in instruction order, with the wrapped operator's name, no config and no results |
| CompileOps.Configured | src/targets/gpu/compile_ops.cpp:270 | each plan takes its instruction's config, and nothing else changes |
| CompileOps.RoundKeepsSolutions | src/targets/gpu/compile_ops.cpp:250-254 | the plans a successful round keeps still offer only non-null solutions |
| CompileOps.RanChosenNonNull | src/targets/gpu/compile_ops.cpp:86-90 | plans offering only non-null solutions still meet insert's assertion after a round's compiles |
| CompileOps.ConfiguredNonNull | src/targets/gpu/compile_ops.cpp:270 | configs with only non-null solutions give plans with only non-null solutions |
| CompileOps.CollectPlans | src/targets/gpu/compile_ops.cpp:260-269 | a fresh manager, with an empty cache, holding one plan per precompile_op |
| CompileOps.ApplyRun | src/targets/gpu/compile_ops.cpp:258-275 | what apply does: the precompile_op plans, configured, then two compiles, the second over what the first kept and with its cache |
| CompileOps.Apply | src/targets/gpu/compile_ops.cpp:258-275 | passes iff walk, configs and both compiles succeed, and returns the plans the second compile leaves; otherwise fails with the failing compile's message |
| CompileOps.ApplyLeavesNothing | src/targets/gpu/compile_ops.cpp:274 | when every config offers at least two non-null solutions and apply succeeds, no plan is left |
| TensorView.View.Default | src/include/migraph/tensor_view.hpp:16 | the default view has no buffer and is empty |
| TensorView.View.constructor | src/include/migraph/tensor_view.hpp:17 | the view holds the given shape and buffer |
| TensorView.View.Empty | src/include/migraph/tensor_view.hpp:21 | empty(): no buffer, or a shape without lengths |
| TensorView.View.Size | src/include/migraph/tensor_view.hpp:23 | size() is a size_t below 2^64 and, with a buffer, no more than the buffer holds |
| TensorView.View.At | src/include/migraph/tensor_view.hpp:29-43 | an index inside the shape on every axis reads the element at its row-major position, which lies inside the buffer |
| TensorView.View.Get | src/include/migraph/tensor_view.hpp:57-67 | element i of a non-empty view is the element at the i-th multi-index in row-major order |
| TensorView.View.BackIndexAsWritten | src/include/migraph/tensor_view.hpp:84 | size() - 1 in size_t: below 2^64, and equal to size() - 1 when there are elements |
| TensorView.View.Front | src/include/migraph/tensor_view.hpp:69-79 | the first element: element 0, and the one at the all-zero multi-index |
| TensorView.View.Back | src/include/migraph/tensor_view.hpp:81-91 | the last element: element size() - 1, at the multi-index of last coordinates |
| TensorView.View.Begin | src/include/migraph/tensor_view.hpp:94-98 | begin() is m_data, offset 0: the start of the buffer |
| TensorView.View.End | src/include/migraph/tensor_view.hpp:100-107 | end() is never before begin() and never past the end of the buffer |
| TensorView.View.Set | src/include/migraph/tensor_view.hpp:57-61 | writing element i changes that element, reads back as the value written, and leaves the others unchanged |
| TensorView.Lasts | src/include/migraph/tensor_view.hpp:84 | each coordinate is its axis length minus one |
| TensorView.PositiveLengths | src/include/migraph/tensor_view.hpp:23 | a positive element count means every length is positive |
| TensorView.FirstIndex | src/include/migraph/tensor_view.hpp:69-79 | the all-zero multi-index is in bounds and at position 0 |
| TensorView.LastIndex | src/include/migraph/tensor_view.hpp:81-91 | the multi-index of last coordinates is in bounds and at position size() - 1 |
| TensorView.RangeIsAccessible | src/include/migraph/tensor_view.hpp:94-122 | [begin(), end()) holds exactly the positions operator[] accepts, and an empty view has an empty range |
| TensorView.AccessGuardAsWritten | src/include/migraph/tensor_view.hpp:32-33 | the two asserts of operator(): the index lexicographically below the lengths, and its position below the element count |
| TensorView.LexLess | src/include/migraph/tensor_view.hpp:32 | std::vector's operator<, lexicographic comparison |
| TensorView.GuardAdmitsInBounds | src/include/migraph/tensor_view.hpp:32-33 | the asserts as written accept every index inside the shape on every axis, so they are never stricter than the per-axis check |
| TensorView.AccessGuardAdmitsAliasing | src/include/migraph/tensor_view.hpp:32-34 | with lengths [2, 3] the asserts pass [0, 5], which is out of bounds on an axis and reads the same element as [1, 2] |
| TensorView.AccessIsOneToOne | src/include/migraph/tensor_view.hpp:29-43 | with per-axis bounds, distinct indices read distinct elements and every element is reached |
| TensorView.ZeroLengthBackOutOfRange | src/include/migraph/tensor_view.hpp:81-91 | a view with a buffer and lengths [0] passes back()'s assert, has no elements, and back() reads position 2^64 - 1 |
| TensorView.Equal | src/include/migraph/tensor_view.hpp:142-155 | true iff the shapes are equal and every pair of elements at the same position is float_equal |
| TensorView.NotEqual | src/include/migraph/tensor_view.hpp:157-161 | exactly the negation of == |
| TensorView.EqualReflexive | src/include/migraph/tensor_view.hpp:142-155 | with a reflexive comparison, every view equals itself |
| TensorView.EqualSymmetric | src/include/migraph/tensor_view.hpp:142-155 | with a symmetric comparison, x == y exactly when y == x |
| GpuLoop.SourceIndex | src/targets/gpu/loop.cpp:12-15 | the input a forwarded position comes from after the two pop_backs and the erases at 3 and 1: the first, the third, then the fifth onwards |
| GpuLoop.ComputeShapeInputs | src/targets/gpu/loop.cpp:10-17 | four fewer inputs are forwarded, and forwarded position k is the first input, the third, then the fifth onwards |
| GpuLoop.ForwardedSelection | src/targets/gpu/loop.cpp:12-15 | the forwarded positions pick, in order and once each, exactly the inputs other than 1, 3 and the last two |
| GpuLoop.Memset | src/targets/gpu/loop.cpp:52 | the bytes of the range become 0, and all other bytes keep their value |
| GpuLoop.Cleared | src/targets/gpu/loop.cpp:44-52 | the bytes set_zero clears: none when iter >= max_iter_num, otherwise [iter * size, max_iter_num * size) with size = bytes / max_iter_num |
| GpuLoop.ClearedRange | src/targets/gpu/loop.cpp:47-52 | the cleared range [iter * size, max_iter_num * size) stays inside the output and is size * elem_num bytes long |
| GpuLoop.GpuLoop.constructor | src/targets/gpu/loop.cpp:21 | the loop keeps max_iter_num |
| GpuLoop.GpuLoop.SetZero | src/targets/gpu/loop.cpp:42-54 | if iter < max_iter_num, each output's bytes [iter * size, max_iter_num * size) become 0; every other byte, and every byte when iter >= max_iter_num, is unchanged |
| GpuLoop.GpuLoop.Append | src/targets/gpu/loop.cpp:37-40 | the concatenated outputs are unchanged |

## Left out

- block_reduce is not modelled. It is the cross-thread reduction inside auto_block_reduce,
  and it lives in a device header outside this model. Only the final vec_reduce step is
  modelled.
- The floating-point work of the layernorm kernel is abstracted into `normalize(row, x)`:
  mean, variance, the 1e-12 epsilon and rsqrt. The model proves which element each thread
  writes and that the value depends only on its row and its element. It does not model
  rounding, and it does not model the reductions' synchronisation.
- `hip_vec_visit_all`'s reinterpretation of the buffers as `vec<T, 4>` is not modelled. The
  kernel works on packed elements directly, and `result` and `arg1` are taken to share one
  shape.
- gs_launch runs all threads concurrently; the model runs them one after another in global
  order. This is sound for the writes because they are pairwise disjoint
  (LayerNorm.InRangeTargetsDisjoint).
- `compute_block_size` is a parameter, constrained to return a positive size of at most 256
  that is at least n whenever n <= 256. `encode_divisor`/`fast_div` are plain division.
- LayerNorm.Dispatch: requires a positive last length. The source divides by relements and
  would fail on 0.
- `index_int` and `size_t` wrap-around is not modelled except in
  TensorView.View.BackIndexAsWritten. Elsewhere all sizes are unbounded naturals.
- The reduction's accumulator has the element type; `accumulator_type<T>` widening is not
  modelled.
- `par_for` in reduce_op's compute runs in parallel; Compute fills positions in order. Each
  position is written once.
- `shape::index` and `shape::multi` for non-standard strides are not modelled: every shape
  is standard and row-major. shape.cpp is not part of this model. `elements()` of a shape
  without lengths is taken as 0. `shape_for_each` is taken to visit in row-major order.
- The internals of `dyn_dims` are left out: a dynamic dimension is a (min, max) pair, and
  `check_shapes` is reduced to its `has(1)` count.
- ReduceOp.NormalizeComputeShape: requires the axes to be in range for the input's rank.
  normalize_attributes.hpp is not part of this model, and the attribute "normalize_axes"
  establishes this before the operator is called.
- ReduceOp.Compute: requires the axes to be in range for the input's rank, for the same
  reason. With an axis out of range, tune_dims would write outside batch_lens.
- ReduceOp.Reduce: requires an output of positive rank. Compute never calls reduce for a
  shape without lengths, because that shape's elements() is 0 and par_for runs no index.
- Permutation.SortPermutation: does not fix the order of indices whose values tie, because
  std::sort is not stable. The algorithm is modelled as an insertion sort, which meets the
  same contract.
- Permutation.ReorderDims: requires every entry of the permutation to index dims. The
  source only asserts equal lengths and reads out of range otherwise.
- Compile and timing are parameters:
  - `compile` and `get_tuning_config` are parameters;
  - `time_op` is a parameter returning a natural;
  - a failed compile is timed at MaxTime = 2^64, standing for the largest double;
  - floating-point times are not modelled.
- CompileOps.Times: does not bound `time_op` below MaxTime. A successful compile timed at
  MaxTime or more can tie with, or lose to, a failed one, which no `time_op` result can do
  against the largest double in the source. CompileOps.BenchmarkPicksFastest therefore
  assumes the successful time is below MaxTime.
- `par_compile`, `par_for` and MIGRAPHX_GPU_COMPILE_PARALLEL are not modelled. The queued
  compiles and update_configs run one after another, in queue order. Each compile writes its
  own slot, and no two compiles share one (CompileOps.AddAllJobsDistinct), so the result does
  not depend on the order (CompileOps.RunJobsWrites).
- `compiler_replace::replace`, the rewriting of the module, is not modelled. A plan's replace
  is its benchmark and the cache update.
- The console output of benchmark is left out. So is the `exhaustive` flag, which is only
  passed through to get_tuning_config.
- CompileOps.Apply: requires every solution a tuning config offers to be non-null. This is
  stronger than the source, where problem_cache::insert (compile_ops.cpp:88) asserts only that
  the solution benchmark chose is non-null, so a config with a null solution that is never
  chosen goes through. Benchmark, ReplacePlans and CompileManager.Compile require exactly
  that assertion.
- `any_cast<precompile_op>` and `precompile_op::compute_shape` are not modelled. An
  instruction carries its name and the wrapped operator's name.
- `hip_loop::compute` (src/targets/gpu/loop.cpp:57-71) only hands gpu_loop to `run_loop`, so
  it is not modelled. run_loop and the loop operator's own compute_shape are outside this
  model. `gpu_loop::copy` is a device copy and is left out too.
- GpuLoop.GpuLoop.SetZero: requires distinct output buffers; aliasing between outputs is not
  modelled. It also requires iter >= 0 whenever iter < max_iter_num: a negative iter would
  move `out.data() + iter * size` before the start of the buffer. `hipMemset` is a byte fill, and its error code, which the source discards, is
  not modelled.
- GpuLoop.ComputeShapeInputs: requires at least six inputs. With fewer, the second erase
  would be out of range.
- The iterator-pair operator() of tensor_view (src/include/migraph/tensor_view.hpp:45-55)
  and `operator<<` are not modelled. `make_view` is the constructor.
- TensorView.View.At: requires the index to be within the shape on every axis. This is
  stronger than the source's lexicographic assert (see Findings).
- TensorView.View.Front: requires size() > 0, which is stronger than the source's `!empty()`
  (see Findings).
- TensorView.View.Back: requires size() > 0, which is stronger than the source's `!empty()`
  (see Findings).
- The `float_equal` comparison is a parameter of TensorView.Equal.

## Findings

| source | as written | input that shows it | evidently intended | confidence | as-written member | corrected member |
|---|---|---|---|---|---|---|
| src/targets/gpu/device/layernorm.cpp:160-161 | every relements that is a multiple of 4 goes to the 4-wide kernel, whose assert needs relements / 4 <= block_size <= 256 | lengths [1, 2048]: 512 packed elements per row, one block of at most 256 threads | the 4-wide kernel only for rows of at most 1024 scalars; wider rows rejected | not executed | LayerNorm.WideRowReachesVectorKernel | LayerNorm.DispatchChecked |
| src/include/migraph/tensor_view.hpp:32-34 | operator() checks the index lexicographically and its flat position against the element count | lengths [2, 3], index [0, 5]: passes both asserts and reads the element of [1, 2] | every coordinate below its own axis length | not executed | TensorView.AccessGuardAdmitsAliasing | TensorView.AccessIsOneToOne |
| src/include/migraph/tensor_view.hpp:81-91 | front()/back() assert only !empty(), which holds for a buffer with a zero length | a view with a buffer and lengths [0]: back() reads position size() - 1 = 2^64 - 1 | front()/back() only for a view with at least one element | not executed | TensorView.ZeroLengthBackOutOfRange | TensorView.View.Back |
| src/targets/gpu/compile_ops.cpp:172-177 | a single result is returned without recording its solution, so a problem marked null stays null | two plans tuning the same problem whose config offers one solution: after two successful compiles the second plan is still left, and the assert at line 274 fails | the single solution recorded in the cache, so that waiting plans are compiled in the second round | not executed | CompileOps.SingleSolutionLeftOver | CompileOps.TwoRoundsResolveAllFixed |
