/**
 * The compile-and-tune pass of the GPU target (src/targets/gpu/compile_ops.cpp): every
 * precompile_op instruction gets a compile plan; a plan with a tuning configuration compiles
 * one candidate per solution and benchmarks them, remembering the fastest solution per
 * (operator name, problem) in a problem cache; a plan whose problem is already being tuned
 * waits for the next round.
 *
 * Compilation and timing are parameters (compileFn, timeOp); compile jobs run one after
 * another in the order they were queued. A failed operation is an Err / Fail outcome that
 * ends the pass, as the thrown exception does.
 */
module CompileOps {
  import opened Wrappers

  /** A migraphx::value as far as the cache is concerned: null, or some data. */
  datatype Value = Null | Data(payload: int)

  /** problem_cache::create_key: the operator name with the problem. */
  datatype Key = Key(name: string, problem: Value)

  /** What get_tuning_config returns: the problem and the candidate solutions. */
  datatype TuningConfig = TuningConfig(problem: Value, solutions: seq<Value>)

  /** compiled_result: the replacement produced by compile, for an instruction. */
  datatype CompiledResult = CompiledResult(replace: int, ins: nat)

  /** compile_plan: the precompiled operator's name, its instruction, config and results. */
  datatype Plan = Plan(name: string, ins: nat, config: Option<TuningConfig>,
                       results: seq<Option<CompiledResult>>)

  /** One queued compile: it stores the compile of solution in slot slot of plan plan. */
  datatype Job = Job(plan: nat, slot: nat, solution: Value)

  /** Stands for std::numeric_limits<double>::max(), the time of a failed compile. */
  const MaxTime: nat := 0x1_0000_0000_0000_0000

  // ---------------------------------------------------------------------------------------
  // problem_cache
  // ---------------------------------------------------------------------------------------

  /** mark: the key is added with a null value unless it is already present. */
  function Marked(cache: map<Key, Value>, key: Key): map<Key, Value>
  {
    if key in cache then cache else cache[key := Null]
  }

  /** mark never overwrites: every existing entry keeps its value, and only key is added. */
  lemma MarkNeverOverwrites(cache: map<Key, Value>, key: Key)
    ensures key in Marked(cache, key)
    ensures forall k :: k in cache ==> k in Marked(cache, key) && Marked(cache, key)[k] == cache[k]
    ensures forall k :: k in Marked(cache, key) ==> k in cache || k == key
    ensures key !in cache ==> Marked(cache, key)[key] == Null
  {
  }

  /** problem_cache: solutions found so far, keyed by (name, problem); null means "being tuned". */
  class ProblemCache {
    var cache: map<Key, Value>

    constructor ()
      ensures cache == map[]
    {
      cache := map[];
    }

    /** has: whether the key is present. */
    predicate Has(name: string, problem: Value)
      reads this
      ensures Has(name, problem) <==> Marked(cache, Key(name, problem)) == cache
    {
      Key(name, problem) in cache
    }

    /** get: none exactly when the key is absent, otherwise the stored value, null included. */
    function Get(name: string, problem: Value): (r: Option<Value>)
      reads this
      ensures r.Some? <==> Has(name, problem)
      ensures r.Some? ==> r.value == cache[Key(name, problem)]
    {
      var key := Key(name, problem);
      if key in cache then Some(cache[key]) else None
    }

    /** insert: a non-null solution replaces whatever the key held; no other key changes. */
    method Insert(name: string, problem: Value, solution: Value)
      requires solution != Null
      modifies this
      ensures cache == old(cache)[Key(name, problem) := solution]
    {
      cache := cache[Key(name, problem) := solution];
    }

    /** mark: the key is recorded with a null value, unless it is already present. */
    method Mark(name: string, problem: Value)
      modifies this
      ensures cache == Marked(old(cache), Key(name, problem))
    {
      var key := Key(name, problem);
      if key !in cache {
        cache := cache[key := Null];
      }
    }
  }

  // ---------------------------------------------------------------------------------------
  // compile_plan::add_compiles
  // ---------------------------------------------------------------------------------------

  /** std::vector::resize: the first entries are kept, new entries are nullopt. */
  function Resize(results: seq<Option<CompiledResult>>, n: nat): (r: seq<Option<CompiledResult>>)
    ensures |r| == n
    ensures forall k :: 0 <= k < n && k < |results| ==> r[k] == results[k]
    ensures forall k :: |results| <= k < n ==> r[k] == None
  {
    if n <= |results| then results[..n] else results + seq(n - |results|, _ => None)
  }

  /** The key of a plan with a tuning configuration. */
  function KeyOf(plan: Plan): Key
    requires plan.config.Some?
  {
    Key(plan.name, plan.config.value.problem)
  }

  /** The same plan up to its results. */
  ghost predicate SameExceptResults(a: Plan, b: Plan)
  {
    a.name == b.name && a.ins == b.ins && a.config == b.config
  }

  /** Every job targets an existing slot of an existing plan. */
  ghost predicate ValidJobs(plans: seq<Plan>, jobs: seq<Job>)
  {
    forall k :: 0 <= k < |jobs| ==>
      jobs[k].plan < |plans| && jobs[k].slot < |plans[jobs[k].plan].results|
  }

  /** What add_compiles does to a plan, the compile queue and the cache. */
  datatype Added = Added(plan: Plan, jobs: seq<Job>, cache: map<Key, Value>)

  /** add_compiles for the plan at position p, as a function of the cache it sees. */
  function AddOne(plan: Plan, p: nat, cache: map<Key, Value>): (a: Added)
    ensures SameExceptResults(a.plan, plan)
    ensures forall k :: 0 <= k < |a.jobs| ==> a.jobs[k].plan == p && a.jobs[k].slot < |a.plan.results|
    ensures forall k :: 0 <= k < |a.jobs| ==> a.jobs[k].slot == k
    ensures forall k :: k in cache ==> k in a.cache
  {
    match plan.config
    case None =>
      Added(plan.(results := Resize(plan.results, 1)), [Job(p, 0, Null)], cache)
    case Some(cfg) =>
      var key := KeyOf(plan);
      if key in cache then
        if cache[key] == Null then Added(plan, [], cache)
        else Added(plan.(results := Resize(plan.results, 1)), [Job(p, 0, cache[key])], cache)
      else
        Added(plan.(results := Resize(plan.results, |cfg.solutions|)),
              seq(|cfg.solutions|, i requires 0 <= i < |cfg.solutions| => Job(p, i, cfg.solutions[i])),
              Marked(cache, key))
  }

  /**
   * add_compiles: with no config, one compile of the null solution; with a config whose
   * problem is cached as null, nothing (it is still being tuned); cached non-null, one
   * compile of that solution; not cached, the problem is marked and there is one result
   * slot and one compile per solution.
   */
  method AddCompiles(plan: Plan, p: nat, pc: ProblemCache) returns (plan': Plan, jobs: seq<Job>)
    modifies pc
    ensures Added(plan', jobs, pc.cache) == AddOne(plan, p, old(pc.cache))
    ensures plan.config.None? ==>
              |plan'.results| == 1 && jobs == [Job(p, 0, Null)] && pc.cache == old(pc.cache)
    ensures plan.config.Some? && KeyOf(plan) in old(pc.cache) && old(pc.cache)[KeyOf(plan)] == Null ==>
              plan' == plan && jobs == [] && pc.cache == old(pc.cache)
    ensures plan.config.Some? && KeyOf(plan) in old(pc.cache) && old(pc.cache)[KeyOf(plan)] != Null ==>
              |plan'.results| == 1 && jobs == [Job(p, 0, old(pc.cache)[KeyOf(plan)])]
              && pc.cache == old(pc.cache)
    ensures plan.config.Some? && KeyOf(plan) !in old(pc.cache) ==>
              && pc.cache == old(pc.cache)[KeyOf(plan) := Null]
              && |plan'.results| == |jobs| == |plan.config.value.solutions|
              && forall i :: 0 <= i < |jobs| ==> jobs[i] == Job(p, i, plan.config.value.solutions[i])
  {
    if plan.config.Some? {
      var cfg := plan.config.value;
      var sol := pc.Get(plan.name, cfg.problem);
      if sol.Some? {
        var solution := sol.value;
        if solution == Null {
          return plan, [];
        }
        plan' := plan.(results := Resize(plan.results, 1));
        jobs := [Job(p, 0, solution)];
      } else {
        pc.Mark(plan.name, cfg.problem);
        plan' := plan.(results := Resize(plan.results, |cfg.solutions|));
        jobs := [];
        var i := 0;
        while i < |cfg.solutions|
          invariant 0 <= i <= |cfg.solutions|
          invariant |jobs| == i && forall k :: 0 <= k < i ==> jobs[k] == Job(p, k, cfg.solutions[k])
        {
          jobs := jobs + [Job(p, i, cfg.solutions[i])];
          i := i + 1;
        }
      }
    } else {
      plan' := plan.(results := Resize(plan.results, 1));
      jobs := [Job(p, 0, Null)];
    }
  }

  /** The plans, queue and cache after add_compiles has run for the first n plans in order. */
  datatype Staged = Staged(plans: seq<Plan>, jobs: seq<Job>, cache: map<Key, Value>)

  /** The loop of compile_manager::compile that calls add_compiles on every plan. */
  function AddAll(cps: seq<Plan>, cache: map<Key, Value>, n: nat): (s: Staged)
    requires n <= |cps|
    ensures |s.plans| == n && ValidJobs(s.plans, s.jobs)
    ensures forall i :: 0 <= i < n ==> SameExceptResults(s.plans[i], cps[i])
    ensures forall k :: k in cache ==> k in s.cache
  {
    if n == 0 then Staged([], [], cache)
    else
      var s := AddAll(cps, cache, n - 1);
      var a := AddOne(cps[n - 1], n - 1, s.cache);
      Staged(s.plans + [a.plan], s.jobs + a.jobs, a.cache)
  }

  /** One more plan staged: its add_compiles runs against the cache the earlier plans left. */
  lemma AddAllUnfold(cps: seq<Plan>, cache: map<Key, Value>, i: nat)
    requires i < |cps|
    ensures var s := AddAll(cps, cache, i);
      var a := AddOne(cps[i], i, s.cache);
      AddAll(cps, cache, i + 1) == Staged(s.plans + [a.plan], s.jobs + a.jobs, a.cache)
  {
  }

  // ---------------------------------------------------------------------------------------
  // Running the queued compiles
  // ---------------------------------------------------------------------------------------

  /** insert_compiles' job body: the compile result, or nullopt when compile threw. */
  function Compiled(ins: nat, solution: Value, compileFn: (nat, Value) -> Option<int>): Option<CompiledResult>
  {
    match compileFn(ins, solution)
    case None => None
    case Some(code) => Some(CompiledResult(code, ins))
  }

  /** One job: the slot it targets receives the compile of its solution. */
  function ApplyJob(plans: seq<Plan>, job: Job, compileFn: (nat, Value) -> Option<int>): (r: seq<Plan>)
    requires job.plan < |plans| && job.slot < |plans[job.plan].results|
    ensures |r| == |plans|
    ensures forall i :: 0 <= i < |r| ==>
              SameExceptResults(r[i], plans[i]) && |r[i].results| == |plans[i].results|
    ensures r[job.plan].results[job.slot] == Compiled(plans[job.plan].ins, job.solution, compileFn)
    ensures forall i, s :: 0 <= i < |r| && 0 <= s < |r[i].results| && !Targets(job, i, s) ==>
              r[i].results[s] == plans[i].results[s]
  {
    var plan := plans[job.plan];
    plans[job.plan := plan.(results := plan.results[job.slot := Compiled(plan.ins, job.solution, compileFn)])]
  }

  /** Whether the job writes slot s of plan i. */
  predicate Targets(job: Job, i: nat, s: nat)
  {
    job.plan == i && job.slot == s
  }

  /** No two jobs of the queue write the same slot of the same plan. */
  ghost predicate JobsDistinct(jobs: seq<Job>)
  {
    forall a, b :: 0 <= a < b < |jobs| ==> !Targets(jobs[a], jobs[b].plan, jobs[b].slot)
  }

  /** The queue run in order. */
  function RunJobs(plans: seq<Plan>, jobs: seq<Job>, compileFn: (nat, Value) -> Option<int>): (r: seq<Plan>)
    requires ValidJobs(plans, jobs)
    ensures |r| == |plans|
    ensures forall i :: 0 <= i < |r| ==>
              SameExceptResults(r[i], plans[i]) && |r[i].results| == |plans[i].results|
    decreases |jobs|
  {
    if jobs == [] then plans
    else
      var next := ApplyJob(plans, jobs[0], compileFn);
      assert ValidJobs(next, jobs[1..]) by {
        forall k | 0 <= k < |jobs| - 1
          ensures jobs[1..][k].plan < |next| && jobs[1..][k].slot < |next[jobs[1..][k].plan].results|
        {
          assert jobs[1..][k] == jobs[k + 1];
        }
      }
      RunJobs(next, jobs[1..], compileFn)
  }

  /**
   * The queue add_compiles builds never targets one slot twice: the jobs of a plan fill its
   * slots 0, 1, 2, ... and the jobs of different plans name different plans.
   */
  lemma {:induction false} AddAllJobsDistinct(cps: seq<Plan>, cache: map<Key, Value>, n: nat)
    requires n <= |cps|
    ensures JobsDistinct(AddAll(cps, cache, n).jobs)
    ensures forall k :: 0 <= k < |AddAll(cps, cache, n).jobs| ==> AddAll(cps, cache, n).jobs[k].plan < n
  {
    if n > 0 {
      AddAllJobsDistinct(cps, cache, n - 1);
      var s := AddAll(cps, cache, n - 1);
      var a := AddOne(cps[n - 1], n - 1, s.cache);
      var jobs := s.jobs + a.jobs;
      assert AddAll(cps, cache, n).jobs == jobs;
      forall x, y | 0 <= x < y < |jobs|
        ensures !Targets(jobs[x], jobs[y].plan, jobs[y].slot)
      {
        if y >= |s.jobs| && x >= |s.jobs| {
          assert jobs[x].slot == x - |s.jobs| && jobs[y].slot == y - |s.jobs|;
        } else if y >= |s.jobs| {
          assert jobs[x].plan < n - 1 && jobs[y].plan == n - 1;
        }
      }
    }
  }

  /**
   * Running a queue of jobs that target distinct slots: each job's slot holds the compile of
   * its solution, whatever the order the jobs ran in, and every slot no job targets keeps its
   * old result. This is why par_compile's jobs may run in any order.
   */
  lemma {:induction false} RunJobsWrites(plans: seq<Plan>, jobs: seq<Job>, compileFn: (nat, Value) -> Option<int>)
    requires ValidJobs(plans, jobs) && JobsDistinct(jobs)
    ensures forall k :: 0 <= k < |jobs| ==>
              RunJobs(plans, jobs, compileFn)[jobs[k].plan].results[jobs[k].slot]
              == Compiled(plans[jobs[k].plan].ins, jobs[k].solution, compileFn)
    ensures forall i, s :: 0 <= i < |plans| && 0 <= s < |plans[i].results| &&
                           (forall k :: 0 <= k < |jobs| ==> !Targets(jobs[k], i, s)) ==>
              RunJobs(plans, jobs, compileFn)[i].results[s] == plans[i].results[s]
    decreases |jobs|
  {
    if jobs != [] {
      var next := ApplyJob(plans, jobs[0], compileFn);
      var rest := jobs[1..];
      assert ValidJobs(next, rest) by {
        forall k | 0 <= k < |rest|
          ensures rest[k].plan < |next| && rest[k].slot < |next[rest[k].plan].results|
        {
          assert rest[k] == jobs[k + 1];
        }
      }
      assert JobsDistinct(rest) by {
        forall x, y | 0 <= x < y < |rest|
          ensures !Targets(rest[x], rest[y].plan, rest[y].slot)
        {
          assert rest[x] == jobs[x + 1] && rest[y] == jobs[y + 1];
        }
      }
      RunJobsWrites(next, rest, compileFn);
      assert RunJobs(plans, jobs, compileFn) == RunJobs(next, rest, compileFn);
      var final := RunJobs(next, rest, compileFn);
      forall k | 0 <= k < |jobs|
        ensures final[jobs[k].plan].results[jobs[k].slot]
                == Compiled(plans[jobs[k].plan].ins, jobs[k].solution, compileFn)
      {
        if k == 0 {
          forall m | 0 <= m < |rest|
            ensures !Targets(rest[m], jobs[0].plan, jobs[0].slot)
          {
            assert rest[m] == jobs[m + 1];
          }
        } else {
          assert rest[k - 1] == jobs[k];
          assert SameExceptResults(next[jobs[k].plan], plans[jobs[k].plan]);
        }
      }
      forall i, s | 0 <= i < |plans| && 0 <= s < |plans[i].results| &&
                    (forall k :: 0 <= k < |jobs| ==> !Targets(jobs[k], i, s))
        ensures final[i].results[s] == plans[i].results[s]
      {
        assert !Targets(jobs[0], i, s);
        forall m | 0 <= m < |rest|
          ensures !Targets(rest[m], i, s)
        {
          assert rest[m] == jobs[m + 1];
        }
      }
    }
  }

  // ---------------------------------------------------------------------------------------
  // compile_plan::benchmark
  // ---------------------------------------------------------------------------------------

  /** The times of the results: time_op of each compiled result, and MaxTime for a failure. */
  function Times(results: seq<Option<CompiledResult>>, timeOp: CompiledResult -> nat): (t: seq<nat>)
    ensures |t| == |results|
  {
    seq(|results|, k requires 0 <= k < |results| =>
      if results[k].None? then MaxTime else timeOp(results[k].value))
  }

  /** The position std::min_element returns: the first position of a smallest time. */
  function FirstMin(times: seq<nat>): (i: nat)
    requires |times| > 0
    ensures i < |times|
    ensures forall k :: 0 <= k < |times| ==> times[i] <= times[k]
    ensures forall k :: 0 <= k < i ==> times[k] > times[i]
  {
    if |times| == 1 then 0
    else
      var j := FirstMin(times[..|times| - 1]);
      if times[|times| - 1] < times[j] then |times| - 1 else j
  }

  /** std::min_element over the times. */
  method MinIndex(times: seq<nat>) returns (i: nat)
    requires |times| > 0
    ensures i < |times|
    ensures forall k :: 0 <= k < |times| ==> times[i] <= times[k]
    ensures forall k :: 0 <= k < i ==> times[k] > times[i]
    ensures i == FirstMin(times)
  {
    i := 0;
    var k := 1;
    while k < |times|
      invariant 1 <= k <= |times| && i == FirstMin(times[..k])
    {
      assert times[..k + 1][..k] == times[..k];
      if times[k] < times[i] {
        i := k;
      }
      k := k + 1;
    }
    assert times[..k] == times;
  }

  /** std::transform of the results into times. */
  method TimeResults(results: seq<Option<CompiledResult>>, timeOp: CompiledResult -> nat)
    returns (times: seq<nat>)
    ensures times == Times(results, timeOp)
  {
    times := [];
    var k := 0;
    while k < |results|
      invariant 0 <= k <= |results| && |times| == k
      invariant forall j :: 0 <= j < k ==> times[j] == Times(results, timeOp)[j]
    {
      var t := if results[k].None? then MaxTime else timeOp(results[k].value);
      times := times + [t];
      k := k + 1;
    }
  }

  /** The solution index benchmark picks among several results. */
  function Chosen(plan: Plan, timeOp: CompiledResult -> nat): nat
    requires |plan.results| > 1
  {
    FirstMin(Times(plan.results, timeOp))
  }

  /** What benchmark returns or throws. */
  function BenchmarkResult(plan: Plan, timeOp: CompiledResult -> nat): (r: Result<CompiledResult>)
    ensures r.Ok? ==> exists i :: 0 <= i < |plan.results| && plan.results[i] == Some(r.value)
    ensures r.Ok? && |plan.results| > 1 ==> plan.results[Chosen(plan, timeOp)] == Some(r.value)
  {
    if |plan.results| == 0 then Err("No configs to tune")
    else if |plan.results| == 1 then
      if plan.results[0].None? then Err("No configs to tune") else Ok(plan.results[0].value)
    else if plan.config.None? then Err("Multiple kernels without config")
    else
      var i := Chosen(plan, timeOp);
      if i >= |plan.config.value.solutions| then Err("vector::at: index out of range")
      else if plan.results[i].None? then Err("No valid tuned compilation.")
      else Ok(plan.results[i].value)
  }

  /** The cache after benchmark: the chosen solution is recorded only on the several-results path. */
  function BenchmarkCache(plan: Plan, cache: map<Key, Value>, timeOp: CompiledResult -> nat): map<Key, Value>
  {
    if |plan.results| > 1 && plan.config.Some? && Chosen(plan, timeOp) < |plan.config.value.solutions|
    then cache[KeyOf(plan) := plan.config.value.solutions[Chosen(plan, timeOp)]]
    else cache
  }

  /** Every candidate solution of the plan's config is a real value (insert asserts it). */
  ghost predicate SolutionsNonNull(plan: Plan)
  {
    plan.config.Some? ==> forall k :: 0 <= k < |plan.config.value.solutions| ==>
                            plan.config.value.solutions[k] != Null
  }

  /**
   * What problem_cache::insert asserts of the value benchmark hands it: the solution chosen
   * on the several-results path, when there is one at that position, is not null.
   */
  ghost predicate ChosenNonNull(plan: Plan, timeOp: CompiledResult -> nat)
  {
    |plan.results| > 1 && plan.config.Some? && Chosen(plan, timeOp) < |plan.config.value.solutions|
    ==> plan.config.value.solutions[Chosen(plan, timeOp)] != Null
  }

  /** A plan whose candidate solutions are all real values meets insert's assertion. */
  lemma SolutionsNonNullChosen(plan: Plan, timeOp: CompiledResult -> nat)
    requires SolutionsNonNull(plan)
    ensures ChosenNonNull(plan, timeOp)
  {
  }

  /**
   * benchmark: no results, or a single failed one, is "No configs to tune"; a single result
   * is returned as is; several results need a config, are timed with failures at MaxTime,
   * and the first fastest is chosen: its solution is recorded in the cache, and it is
   * returned unless its compile failed.
   */
  method Benchmark(plan: Plan, pc: ProblemCache, timeOp: CompiledResult -> nat) returns (r: Result<CompiledResult>)
    requires ChosenNonNull(plan, timeOp)
    modifies pc
    ensures r == BenchmarkResult(plan, timeOp)
    ensures pc.cache == BenchmarkCache(plan, old(pc.cache), timeOp)
  {
    if |plan.results| == 0 {
      return Err("No configs to tune");
    }
    if |plan.results| == 1 {
      if plan.results[0].None? {
        return Err("No configs to tune");
      }
      return Ok(plan.results[0].value);
    }
    if plan.config.None? {
      return Err("Multiple kernels without config");
    }
    var times := TimeResults(plan.results, timeOp);
    var i := MinIndex(times);
    var cfg := plan.config.value;
    if i >= |cfg.solutions| {
      return Err("vector::at: index out of range");
    }
    pc.Insert(plan.name, cfg.problem, cfg.solutions[i]);
    if plan.results[i].None? {
      return Err("No valid tuned compilation.");
    }
    return Ok(plan.results[i].value);
  }

  /**
   * Failures count as slowest: the chosen result is at least as fast as every result, none
   * before it is as fast, and when some compile succeeded with a time below MaxTime the
   * chosen one succeeded too.
   */
  lemma BenchmarkPicksFastest(plan: Plan, timeOp: CompiledResult -> nat, s: nat)
    requires |plan.results| > 1
    requires s < |plan.results| && plan.results[s].Some? && timeOp(plan.results[s].value) < MaxTime
    ensures var i := Chosen(plan, timeOp);
      && plan.results[i].Some?
      && timeOp(plan.results[i].value) <= timeOp(plan.results[s].value)
      && forall k :: 0 <= k < i ==> Times(plan.results, timeOp)[k] > timeOp(plan.results[i].value)
  {
    var t := Times(plan.results, timeOp);
    var i := Chosen(plan, timeOp);
    assert t[i] <= t[s];
  }

  // ---------------------------------------------------------------------------------------
  // compile_manager::compile
  // ---------------------------------------------------------------------------------------

  /** The replace loop of compile over the first n plans: plans without results are skipped. */
  function ReplaceAll(plans: seq<Plan>, cache: map<Key, Value>, timeOp: CompiledResult -> nat, n: nat)
    : (r: Result<map<Key, Value>>)
    requires n <= |plans|
    ensures r.Ok? ==> forall k :: k in cache ==> k in r.value
  {
    if n == 0 then Ok(cache)
    else
      match ReplaceAll(plans, cache, timeOp, n - 1)
      case Err(m) => Err(m)
      case Ok(c) =>
        var plan := plans[n - 1];
        if plan.results == [] then Ok(c)
        else
          match BenchmarkResult(plan, timeOp)
          case Err(m) => Err(m)
          case Ok(_) => Ok(BenchmarkCache(plan, c, timeOp))
  }

  /** The plans std::remove_if keeps: those whose results are empty, in their order. */
  function Kept(plans: seq<Plan>): (k: seq<Plan>)
    ensures |k| <= |plans|
    ensures forall i :: 0 <= i < |k| ==> k[i].results == []
  {
    if plans == [] then []
    else Kept(plans[..|plans| - 1]) + (if plans[|plans| - 1].results == [] then [plans[|plans| - 1]] else [])
  }

  /**
   * The erase removes exactly the plans with results: every kept plan has none, every plan
   * without results is kept, and the order is kept, Kept distributing over concatenation.
   */
  lemma {:induction false} KeptExactly(a: seq<Plan>, b: seq<Plan>)
    ensures Kept(a + b) == Kept(a) + Kept(b)
    ensures forall q :: q in Kept(a) ==> q in a && q.results == []
    ensures forall q :: q in a && q.results == [] ==> q in Kept(a)
    decreases |b|
  {
    if b == [] {
      assert a + b == a;
    } else {
      var n := |b| - 1;
      assert (a + b)[..|a + b| - 1] == a + b[..n];
      KeptExactly(a, b[..n]);
    }
    KeptMembers(a);
  }

  lemma {:induction false} KeptMembers(a: seq<Plan>)
    ensures forall q :: q in Kept(a) ==> q in a && q.results == []
    ensures forall q :: q in a && q.results == [] ==> q in Kept(a)
  {
    if a != [] {
      var n := |a| - 1;
      KeptMembers(a[..n]);
      assert a == a[..n] + [a[n]];
    }
  }

  /** The state a round leaves: the plans still to compile and the cache. */
  datatype RoundState = RoundState(cps: seq<Plan>, cache: map<Key, Value>)

  /** One call of compile_manager::compile. */
  function Round(cps: seq<Plan>, cache: map<Key, Value>, compileFn: (nat, Value) -> Option<int>,
                 timeOp: CompiledResult -> nat): (r: Result<RoundState>)
    ensures r.Ok? ==> |r.value.cps| <= |cps| && forall i :: 0 <= i < |r.value.cps| ==> r.value.cps[i].results == []
    ensures r.Ok? ==> forall k :: k in cache ==> k in r.value.cache
  {
    var staged := AddAll(cps, cache, |cps|);
    var ran := RunJobs(staged.plans, staged.jobs, compileFn);
    match ReplaceAll(ran, staged.cache, timeOp, |ran|)
    case Err(m) => Err(m)
    case Ok(c) => Ok(RoundState(Kept(ran), c))
  }

  /** compile_manager: the problem cache and the plans still to compile. */
  class CompileManager {
    const pc: ProblemCache
    var cps: seq<Plan>

    constructor ()
      ensures fresh(pc) && pc.cache == map[] && cps == []
    {
      pc := new ProblemCache();
      cps := [];
    }

    /** add_plan: the plan is appended. */
    method AddPlan(plan: Plan)
      modifies this
      ensures cps == old(cps) + [plan]
    {
      cps := cps + [plan];
    }

    /** update_configs: every plan gets the tuning config of its instruction. */
    method UpdateConfigs(getConfig: nat -> Option<TuningConfig>)
      modifies this
      ensures |cps| == |old(cps)|
      ensures forall i :: 0 <= i < |cps| ==> cps[i] == old(cps)[i].(config := getConfig(old(cps)[i].ins))
    {
      var i := 0;
      while i < |cps|
        invariant 0 <= i <= |cps| == |old(cps)|
        invariant forall k :: 0 <= k < i ==> cps[k] == old(cps)[k].(config := getConfig(old(cps)[k].ins))
        invariant forall k :: i <= k < |cps| ==> cps[k] == old(cps)[k]
      {
        cps := cps[i := cps[i].(config := getConfig(cps[i].ins))];
        i := i + 1;
      }
    }

    /** The add_compiles loop: every plan, in order, queues its compiles. */
    method AddAllCompiles() returns (jobs: seq<Job>)
      modifies this, pc
      ensures Staged(cps, jobs, pc.cache) == AddAll(old(cps), old(pc.cache), |old(cps)|)
    {
      ghost var start := cps;
      jobs := [];
      var i := 0;
      while i < |cps|
        invariant 0 <= i <= |cps| == |start|
        invariant Staged(cps[..i], jobs, pc.cache) == AddAll(start, old(pc.cache), i)
        invariant cps[i..] == start[i..]
      {
        ghost var prev := AddAll(start, old(pc.cache), i);
        assert cps[i] == start[i] && pc.cache == prev.cache && cps[..i] == prev.plans;
        var plan', added := AddCompiles(cps[i], i, pc);
        AddAllUnfold(start, old(pc.cache), i);
        cps := cps[i := plan'];
        jobs := jobs + added;
        assert cps[..i + 1] == prev.plans + [plan'];
        i := i + 1;
      }
      assert cps[..i] == cps;
    }

    /** par_compile over the queue, run in order. */
    method RunCompiles(jobs: seq<Job>, compileFn: (nat, Value) -> Option<int>)
      requires ValidJobs(cps, jobs)
      modifies this
      ensures cps == RunJobs(old(cps), jobs, compileFn)
    {
      var k := 0;
      while k < |jobs|
        invariant 0 <= k <= |jobs|
        invariant ValidJobs(cps, jobs[k..])
        invariant RunJobs(cps, jobs[k..], compileFn) == RunJobs(old(cps), jobs, compileFn)
      {
        assert jobs[k..][0] == jobs[k] && jobs[k..][1..] == jobs[k + 1..];
        cps := ApplyJob(cps, jobs[k], compileFn);
        k := k + 1;
      }
    }

    /** The replace loop: each plan with results is benchmarked, and a failure ends the round. */
    method ReplacePlans(timeOp: CompiledResult -> nat) returns (outcome: Outcome)
      requires forall i :: 0 <= i < |cps| ==> ChosenNonNull(cps[i], timeOp)
      modifies pc
      ensures var r := ReplaceAll(cps, old(pc.cache), timeOp, |cps|);
        && (outcome.Pass? <==> r.Ok?)
        && (r.Ok? ==> pc.cache == r.value)
        && (r.Err? ==> outcome == Fail(r.message))
    {
      var i := 0;
      while i < |cps|
        invariant 0 <= i <= |cps|
        invariant ReplaceAll(cps, old(pc.cache), timeOp, i) == Ok(pc.cache)
      {
        if cps[i].results != [] {
          var r := Benchmark(cps[i], pc, timeOp);
          if r.Err? {
            ReplaceStopsAtFailure(cps, old(pc.cache), timeOp, i + 1);
            return Fail(r.message);
          }
        }
        i := i + 1;
      }
      return Pass;
    }

    /** std::remove_if then erase: the plans with results are dropped, the others keep their order. */
    method EraseCompiled()
      modifies this
      ensures cps == Kept(old(cps))
    {
      ghost var start := cps;
      var w := 0;
      var r := 0;
      while r < |cps|
        invariant 0 <= w <= r <= |cps| == |start|
        invariant cps[..w] == Kept(start[..r])
        invariant cps[r..] == start[r..]
      {
        assert start[..r + 1][..r] == start[..r];
        assert cps[r] == start[r];
        if cps[r].results == [] {
          cps := cps[w := cps[r]];
          w := w + 1;
        }
        assert cps[r + 1..] == start[r + 1..];
        r := r + 1;
      }
      assert start[..r] == start;
      cps := cps[..w];
    }

    /**
     * compile: queue every plan's compiles, run them, benchmark and replace each plan that
     * has results, then drop those plans. The state it leaves is one Round.
     */
    method Compile(compileFn: (nat, Value) -> Option<int>, timeOp: CompiledResult -> nat)
      returns (outcome: Outcome)
      requires forall i :: 0 <= i < |cps| ==> ChosenNonNull(Ran(cps, pc.cache, compileFn)[i], timeOp)
      modifies this, pc
      ensures var r := Round(old(cps), old(pc.cache), compileFn, timeOp);
        && (outcome.Pass? <==> r.Ok?)
        && (r.Ok? ==> cps == r.value.cps && pc.cache == r.value.cache)
        && (r.Err? ==> outcome == Fail(r.message))
    {
      ghost var start, cache0 := cps, pc.cache;
      var jobs := AddAllCompiles();
      ghost var staged := AddAll(start, cache0, |start|);
      RunCompiles(jobs, compileFn);
      ghost var ran := RunJobs(staged.plans, jobs, compileFn);
      assert cps == ran == Ran(start, cache0, compileFn);
      outcome := ReplacePlans(timeOp);
      if outcome.Fail? {
        return;
      }
      EraseCompiled();
    }
  }

  /** A failed benchmark ends the replace loop: the round's replace result is that failure. */
  lemma {:induction false} ReplaceStopsAtFailure(plans: seq<Plan>, cache: map<Key, Value>,
                                                 timeOp: CompiledResult -> nat, n: nat)
    requires 0 < n <= |plans|
    requires ReplaceAll(plans, cache, timeOp, n - 1).Ok?
    requires plans[n - 1].results != [] && BenchmarkResult(plans[n - 1], timeOp).Err?
    ensures ReplaceAll(plans, cache, timeOp, |plans|) == Err(BenchmarkResult(plans[n - 1], timeOp).message)
    decreases |plans| - n
  {
    if n < |plans| {
      ErrPersists(plans, cache, timeOp, n, |plans|);
    }
  }

  lemma {:induction false} ErrPersists(plans: seq<Plan>, cache: map<Key, Value>,
                                       timeOp: CompiledResult -> nat, n: nat, m: nat)
    requires n <= m <= |plans|
    requires ReplaceAll(plans, cache, timeOp, n).Err?
    ensures ReplaceAll(plans, cache, timeOp, m) == ReplaceAll(plans, cache, timeOp, n)
    decreases m - n
  {
    if n < m {
      ErrPersists(plans, cache, timeOp, n, m - 1);
    }
  }

  // ---------------------------------------------------------------------------------------
  // Two rounds of compile
  // ---------------------------------------------------------------------------------------

  /** Every tuning config offers at least min solutions, all of them real values. */
  ghost predicate ConfigsOffer(cps: seq<Plan>, min: nat)
  {
    forall i :: 0 <= i < |cps| ==>
      SolutionsNonNull(cps[i]) && (cps[i].config.Some? ==> |cps[i].config.value.solutions| >= min)
  }

  /** Some plan before position i tunes the same problem as the plan at i. */
  ghost predicate SharedEarlier(cps: seq<Plan>, i: nat)
    requires i < |cps| && cps[i].config.Some?
  {
    exists j :: 0 <= j < i && cps[j].config.Some? && KeyOf(cps[j]) == KeyOf(cps[i])
  }

  /**
   * The results a plan has after the first round's add_compiles and compiles: one without a
   * config, one per solution for the first plan of a problem, none for a later plan of it.
   */
  ghost predicate FirstRoundResults(cps: seq<Plan>, plans: seq<Plan>, i: nat)
    requires i < |cps| && i < |plans|
  {
    if cps[i].config.None? then |plans[i].results| == 1
    else |plans[i].results| == |cps[i].config.value.solutions|
         || (plans[i].results == [] && SharedEarlier(cps, i))
  }

  /** add_compiles over fresh plans and an empty cache: each problem is marked by its first plan. */
  lemma {:induction false} FirstRoundAdds(cps: seq<Plan>, n: nat)
    requires n <= |cps| && forall i :: 0 <= i < |cps| ==> cps[i].results == []
    ensures forall i :: 0 <= i < n ==> FirstRoundResults(cps, AddAll(cps, map[], n).plans, i)
    ensures forall k :: k in AddAll(cps, map[], n).cache ==> AddAll(cps, map[], n).cache[k] == Null
    ensures forall k :: k in AddAll(cps, map[], n).cache ==>
              exists j :: 0 <= j < n && cps[j].config.Some? && KeyOf(cps[j]) == k
  {
    if n > 0 {
      FirstRoundAdds(cps, n - 1);
      var s' := AddAll(cps, map[], n - 1);
      var s := AddAll(cps, map[], n);
      var plan := cps[n - 1];
      var a := AddOne(plan, n - 1, s'.cache);
      assert s.plans == s'.plans + [a.plan] && s.cache == a.cache;
      forall i | 0 <= i < n - 1
        ensures FirstRoundResults(cps, s.plans, i)
      {
        assert s.plans[i] == s'.plans[i];
        assert FirstRoundResults(cps, s'.plans, i);
      }
      match plan.config
      case None =>
        assert |a.plan.results| == 1;
      case Some(cfg) =>
        if KeyOf(plan) in s'.cache {
          assert a.plan == plan && a.cache == s'.cache;
          var j :| 0 <= j < n - 1 && cps[j].config.Some? && KeyOf(cps[j]) == KeyOf(plan);
          assert SharedEarlier(cps, n - 1);
        } else {
          assert |a.plan.results| == |cfg.solutions|;
          assert a.cache == s'.cache[KeyOf(plan) := Null];
        }
      assert FirstRoundResults(cps, s.plans, n - 1);
    }
  }

  /** First-round plans with results benchmark their problem, so every problem ends up solved. */
  lemma {:induction false} FirstRoundSolves(cps: seq<Plan>, plans: seq<Plan>, cache: map<Key, Value>,
                                            timeOp: CompiledResult -> nat, n: nat)
    requires |plans| == |cps| && n <= |plans| && ConfigsOffer(cps, 2)
    requires forall i :: 0 <= i < |cps| ==> SameExceptResults(plans[i], cps[i])
    requires forall i :: 0 <= i < |cps| ==> FirstRoundResults(cps, plans, i)
    requires ReplaceAll(plans, cache, timeOp, n).Ok?
    ensures forall j :: 0 <= j < n && cps[j].config.Some? ==>
              KeyOf(cps[j]) in ReplaceAll(plans, cache, timeOp, n).value
              && ReplaceAll(plans, cache, timeOp, n).value[KeyOf(cps[j])] != Null
  {
    if n > 0 {
      FirstRoundSolves(cps, plans, cache, timeOp, n - 1);
      var c' := ReplaceAll(plans, cache, timeOp, n - 1).value;
      var c := ReplaceAll(plans, cache, timeOp, n).value;
      var plan := plans[n - 1];
      if plan.results != [] {
        assert c == BenchmarkCache(plan, c', timeOp);
        if plan.config.Some? && |plan.results| > 1 {
          assert Chosen(plan, timeOp) < |plan.config.value.solutions|;
          assert plan.config.value.solutions[Chosen(plan, timeOp)] != Null by {
            assert SolutionsNonNull(cps[n - 1]);
          }
        }
      }
      forall j | 0 <= j < n && cps[j].config.Some?
        ensures KeyOf(cps[j]) in c && c[KeyOf(cps[j])] != Null
      {
        assert KeyOf(plans[j]) == KeyOf(cps[j]);
        if j == n - 1 {
          assert FirstRoundResults(cps, plans, j);
          if plan.results == [] {
            var j' :| 0 <= j' < j && cps[j'].config.Some? && KeyOf(cps[j']) == KeyOf(cps[j]);
          } else {
            assert |plan.results| == |cps[j].config.value.solutions| >= 2;
          }
        }
      }
    }
  }

  /** A plan whose problem is solved in the cache is compiled in one slot and resolved. */
  lemma {:induction false} SolvedPlansResolve(cps: seq<Plan>, cache: map<Key, Value>, n: nat)
    requires n <= |cps|
    requires forall i :: 0 <= i < |cps| ==>
               cps[i].config.Some? && KeyOf(cps[i]) in cache && cache[KeyOf(cps[i])] != Null
    ensures AddAll(cps, cache, n).cache == cache
    ensures forall i :: 0 <= i < n ==> |AddAll(cps, cache, n).plans[i].results| == 1
  {
    if n > 0 {
      SolvedPlansResolve(cps, cache, n - 1);
      var s' := AddAll(cps, cache, n - 1);
      var s := AddAll(cps, cache, n);
      assert s.plans == s'.plans + [AddOne(cps[n - 1], n - 1, cache).plan];
    }
  }

  /** No plan without results means nothing is kept. */
  lemma NothingKept(plans: seq<Plan>)
    requires forall i :: 0 <= i < |plans| ==> plans[i].results != []
    ensures Kept(plans) == []
  {
    KeptMembers(plans);
  }

  /** The plans a first round keeps all tune a problem that the round solved. */
  lemma KeptAreSolved(cps: seq<Plan>, ran: seq<Plan>, c: map<Key, Value>)
    requires |ran| == |cps|
    requires forall i :: 0 <= i < |cps| ==> SameExceptResults(ran[i], cps[i])
    requires forall i :: 0 <= i < |cps| ==> FirstRoundResults(cps, ran, i)
    requires forall j :: 0 <= j < |cps| && cps[j].config.Some? ==> KeyOf(cps[j]) in c && c[KeyOf(cps[j])] != Null
    ensures forall q :: q in Kept(ran) ==> q.results == [] && q.config.Some? && KeyOf(q) in c && c[KeyOf(q)] != Null
  {
    KeptMembers(ran);
    forall q | q in Kept(ran)
      ensures q.results == [] && q.config.Some? && KeyOf(q) in c && c[KeyOf(q)] != Null
    {
      var i :| 0 <= i < |ran| && ran[i] == q;
      assert FirstRoundResults(cps, ran, i);
    }
  }

  /** The plans after one round's add_compiles and compiles, before replace. */
  function Ran(cps: seq<Plan>, cache: map<Key, Value>, compileFn: (nat, Value) -> Option<int>): (r: seq<Plan>)
    ensures |r| == |cps|
    ensures forall i :: 0 <= i < |r| ==> SameExceptResults(r[i], cps[i])
  {
    var staged := AddAll(cps, cache, |cps|);
    RunJobs(staged.plans, staged.jobs, compileFn)
  }

  /** A round over plans whose problems are all solved compiles every plan, so it keeps nothing. */
  lemma SecondRoundEmpties(cps: seq<Plan>, cache: map<Key, Value>, compileFn: (nat, Value) -> Option<int>)
    requires forall q :: q in cps ==> q.config.Some? && KeyOf(q) in cache && cache[KeyOf(q)] != Null
    ensures Kept(Ran(cps, cache, compileFn)) == []
  {
    assert forall i :: 0 <= i < |cps| ==> cps[i] in cps;
    SolvedPlansResolve(cps, cache, |cps|);
    NothingKept(Ran(cps, cache, compileFn));
  }

  /**
   * apply's expectation that two rounds of compile leave no plan, for fresh plans and an
   * empty cache, when every tuning config offers at least two solutions and both rounds
   * complete.
   */
  lemma TwoRoundsResolveAll(cps: seq<Plan>, compileFn: (nat, Value) -> Option<int>,
                            timeOp: CompiledResult -> nat)
    requires forall i :: 0 <= i < |cps| ==> cps[i].results == []
    requires ConfigsOffer(cps, 2)
    ensures var r1 := Round(cps, map[], compileFn, timeOp);
      r1.Ok? && Round(r1.value.cps, r1.value.cache, compileFn, timeOp).Ok? ==>
        Round(r1.value.cps, r1.value.cache, compileFn, timeOp).value.cps == []
  {
    var r1 := Round(cps, map[], compileFn, timeOp);
    if r1.Ok? {
      var staged := AddAll(cps, map[], |cps|);
      FirstRoundAdds(cps, |cps|);
      var ran := RunJobs(staged.plans, staged.jobs, compileFn);
      assert forall i :: 0 <= i < |cps| ==> FirstRoundResults(cps, ran, i) by {
        forall i | 0 <= i < |cps|
          ensures FirstRoundResults(cps, ran, i)
        {
          assert FirstRoundResults(cps, staged.plans, i);
          assert SameExceptResults(ran[i], staged.plans[i]);
        }
      }
      FirstRoundSolves(cps, ran, staged.cache, timeOp, |ran|);
      KeptAreSolved(cps, ran, r1.value.cache);
      SecondRoundEmpties(r1.value.cps, r1.value.cache, compileFn);
    }
  }

  // ---------------------------------------------------------------------------------------
  // A problem with a single solution
  // ---------------------------------------------------------------------------------------

  /** Two plans tuning the same problem, whose config offers one solution. */
  function SharedSingleSolution(): seq<Plan>
  {
    var cfg := Some(TuningConfig(Data(0), [Data(1)]));
    [Plan("op", 0, cfg, []), Plan("op", 1, cfg, [])]
  }

  /** A compile that always succeeds, and a timer that finds every compile equally fast. */
  function AlwaysCompiles(ins: nat, v: Value): Option<int>
  {
    Some(0)
  }

  function NoTime(r: CompiledResult): nat
  {
    0
  }

  /** The shared problem's key. */
  function SharedKey(): Key
  {
    Key("op", Data(0))
  }

  /** The first plan marks the problem and queues its single solution. */
  lemma SharedFirstPlanAdds()
    ensures AddAll(SharedSingleSolution(), map[], 1)
            == Staged([SharedSingleSolution()[0].(results := [None])], [Job(0, 0, Data(1))],
                      map[SharedKey() := Null])
  {
    var cps := SharedSingleSolution();
    assert KeyOf(cps[0]) == SharedKey();
    assert Resize([], 1) == [None];
    assert AddOne(cps[0], 0, map[]).plan == cps[0].(results := [None]);
    assert AddOne(cps[0], 0, map[]).jobs == [Job(0, 0, Data(1))];
  }

  /** The second plan then finds the problem marked and waits. */
  lemma SharedFirstAdds()
    ensures AddAll(SharedSingleSolution(), map[], 2)
            == Staged([SharedSingleSolution()[0].(results := [None]), SharedSingleSolution()[1]],
                      [Job(0, 0, Data(1))], map[SharedKey() := Null])
  {
    var cps := SharedSingleSolution();
    SharedFirstPlanAdds();
    assert KeyOf(cps[1]) == SharedKey();
    assert AddOne(cps[1], 1, map[SharedKey() := Null]) == Added(cps[1], [], map[SharedKey() := Null]);
  }

  /** Running the one queued compile fills the first plan's slot. */
  lemma SharedFirstRun()
    ensures Ran(SharedSingleSolution(), map[], AlwaysCompiles)
            == [SharedSingleSolution()[0].(results := [Some(CompiledResult(0, 0))]), SharedSingleSolution()[1]]
  {
    var cps := SharedSingleSolution();
    var p0 := cps[0].(results := [None]);
    var done := cps[0].(results := [Some(CompiledResult(0, 0))]);
    SharedFirstAdds();
    assert [None][0 := Some(CompiledResult(0, 0))] == [Some(CompiledResult(0, 0))];
    assert ApplyJob([p0, cps[1]], Job(0, 0, Data(1)), AlwaysCompiles) == [done, cps[1]];
    assert [Job(0, 0, Data(1))][1..] == [];
    assert RunJobs([done, cps[1]], [], AlwaysCompiles) == [done, cps[1]];
  }

  /**
   * First round over the two plans: the first plan marks the problem, compiles its single
   * solution and is replaced without recording it; the second plan waits.
   */
  lemma SharedFirstRound()
    ensures Round(SharedSingleSolution(), map[], AlwaysCompiles, NoTime)
            == Ok(RoundState([SharedSingleSolution()[1]], map[SharedKey() := Null]))
  {
    var cps := SharedSingleSolution();
    var done := cps[0].(results := [Some(CompiledResult(0, 0))]);
    SharedFirstAdds();
    SharedFirstRun();
    SharedFirstReplace(done, cps[1]);
    assert Kept([done, cps[1]]) == [cps[1]] by {
      assert done.results != [] && cps[1].results == [];
      assert [done, cps[1]][..1] == [done];
      assert [done][..0] == [];
      assert Kept([done]) == [];
    }
  }

  /** The replace loop of the first round leaves the problem marked null. */
  lemma SharedFirstReplace(done: Plan, waiting: Plan)
    requires done == SharedSingleSolution()[0].(results := [Some(CompiledResult(0, 0))])
    requires waiting.results == []
    ensures ReplaceAll([done, waiting], map[SharedKey() := Null], NoTime, 2) == Ok(map[SharedKey() := Null])
  {
    assert BenchmarkResult(done, NoTime).Ok?;
    assert ReplaceAll([done, waiting], map[SharedKey() := Null], NoTime, 1) == Ok(map[SharedKey() := Null]);
  }

  /** Second round: the problem is still marked null, so the waiting plan waits again. */
  lemma SharedSecondRound()
    ensures Round([SharedSingleSolution()[1]], map[SharedKey() := Null], AlwaysCompiles, NoTime)
            == Ok(RoundState([SharedSingleSolution()[1]], map[SharedKey() := Null]))
  {
    var rest := [SharedSingleSolution()[1]];
    var cache := map[SharedKey() := Null];
    SharedSecondAdds();
    assert RunJobs(rest, [], AlwaysCompiles) == rest;
    assert ReplaceAll(rest, cache, NoTime, 1) == Ok(cache) by {
      assert rest[0].results == [];
    }
    assert Kept(rest) == rest by {
      assert rest[..0] == [];
    }
  }

  /** In the second round the waiting plan finds its problem still marked null and queues nothing. */
  lemma SharedSecondAdds()
    ensures AddAll([SharedSingleSolution()[1]], map[SharedKey() := Null], 1)
            == Staged([SharedSingleSolution()[1]], [], map[SharedKey() := Null])
  {
    var rest := [SharedSingleSolution()[1]];
    var cache := map[SharedKey() := Null];
    assert KeyOf(rest[0]) == SharedKey();
    assert AddOne(rest[0], 0, cache) == Added(rest[0], [], cache);
    assert AddAll(rest, cache, 0) == Staged([], [], cache);
    assert [] + [rest[0]] == rest;
  }


  /**
   * As written, benchmark records a solution only when it times several results. The first
   * plan of a single-solution problem is replaced without recording it, the problem stays
   * marked null, and the second plan waits in both rounds: apply's expectation fails even
   * though every compile succeeds.
   */
  lemma SingleSolutionLeftOver()
    ensures var r1 := Round(SharedSingleSolution(), map[], AlwaysCompiles, NoTime);
      && r1.Ok? && Round(r1.value.cps, r1.value.cache, AlwaysCompiles, NoTime).Ok?
      && Round(r1.value.cps, r1.value.cache, AlwaysCompiles, NoTime).value.cps != []
  {
    SharedFirstRound();
    SharedSecondRound();
  }

  /**
   * benchmark corrected: a single result of a plan whose config offers exactly one solution
   * records that solution, unless the cache already holds a solution for the problem; every
   * other case is benchmark as written.
   */
  function BenchmarkCacheFixed(plan: Plan, cache: map<Key, Value>, timeOp: CompiledResult -> nat)
    : (c: map<Key, Value>)
    ensures plan.config.Some? && |plan.results| == 1 && |plan.config.value.solutions| == 1 ==>
              KeyOf(plan) in c && (c[KeyOf(plan)] == plan.config.value.solutions[0]
                                   || (KeyOf(plan) in cache && c[KeyOf(plan)] == cache[KeyOf(plan)]))
    ensures forall k :: k in cache ==> k in c
  {
    if && plan.config.Some? && |plan.results| == 1 && |plan.config.value.solutions| == 1
       && !(KeyOf(plan) in cache && cache[KeyOf(plan)] != Null)
    then cache[KeyOf(plan) := plan.config.value.solutions[0]]
    else BenchmarkCache(plan, cache, timeOp)
  }

  /** The replace loop with the corrected benchmark. */
  function ReplaceAllFixed(plans: seq<Plan>, cache: map<Key, Value>, timeOp: CompiledResult -> nat, n: nat)
    : (r: Result<map<Key, Value>>)
    requires n <= |plans|
    ensures r.Ok? ==> forall k :: k in cache ==> k in r.value
  {
    if n == 0 then Ok(cache)
    else
      match ReplaceAllFixed(plans, cache, timeOp, n - 1)
      case Err(m) => Err(m)
      case Ok(c) =>
        var plan := plans[n - 1];
        if plan.results == [] then Ok(c)
        else
          match BenchmarkResult(plan, timeOp)
          case Err(m) => Err(m)
          case Ok(_) => Ok(BenchmarkCacheFixed(plan, c, timeOp))
  }

  /** One compile with the corrected benchmark. */
  function RoundFixed(cps: seq<Plan>, cache: map<Key, Value>, compileFn: (nat, Value) -> Option<int>,
                      timeOp: CompiledResult -> nat): Result<RoundState>
  {
    var ran := Ran(cps, cache, compileFn);
    match ReplaceAllFixed(ran, AddAll(cps, cache, |cps|).cache, timeOp, |ran|)
    case Err(m) => Err(m)
    case Ok(c) => Ok(RoundState(Kept(ran), c))
  }

  /** With the corrected benchmark, a first round solves every problem offering a solution. */
  lemma {:induction false} FirstRoundSolvesFixed(cps: seq<Plan>, plans: seq<Plan>, cache: map<Key, Value>,
                                                 timeOp: CompiledResult -> nat, n: nat)
    requires |plans| == |cps| && n <= |plans| && ConfigsOffer(cps, 1)
    requires forall i :: 0 <= i < |cps| ==> SameExceptResults(plans[i], cps[i])
    requires forall i :: 0 <= i < |cps| ==> FirstRoundResults(cps, plans, i)
    requires ReplaceAllFixed(plans, cache, timeOp, n).Ok?
    ensures forall j :: 0 <= j < n && cps[j].config.Some? ==>
              KeyOf(cps[j]) in ReplaceAllFixed(plans, cache, timeOp, n).value
              && ReplaceAllFixed(plans, cache, timeOp, n).value[KeyOf(cps[j])] != Null
  {
    if n > 0 {
      FirstRoundSolvesFixed(cps, plans, cache, timeOp, n - 1);
      var c' := ReplaceAllFixed(plans, cache, timeOp, n - 1).value;
      var c := ReplaceAllFixed(plans, cache, timeOp, n).value;
      var plan := plans[n - 1];
      assert SolutionsNonNull(cps[n - 1]);
      if plan.results != [] {
        assert c == BenchmarkCacheFixed(plan, c', timeOp);
        if plan.config.Some? && |plan.results| > 1 {
          assert Chosen(plan, timeOp) < |plan.config.value.solutions|;
        }
      }
      forall j | 0 <= j < n && cps[j].config.Some?
        ensures KeyOf(cps[j]) in c && c[KeyOf(cps[j])] != Null
      {
        assert KeyOf(plans[j]) == KeyOf(cps[j]);
        if j == n - 1 {
          assert FirstRoundResults(cps, plans, j);
          if plan.results == [] {
            var j' :| 0 <= j' < j && cps[j'].config.Some? && KeyOf(cps[j']) == KeyOf(cps[j]);
          }
        }
      }
    }
  }

  /**
   * With the corrected benchmark, two rounds over fresh plans and an empty cache leave no
   * plan once every tuning config offers at least one solution.
   */
  lemma TwoRoundsResolveAllFixed(cps: seq<Plan>, compileFn: (nat, Value) -> Option<int>,
                                 timeOp: CompiledResult -> nat)
    requires forall i :: 0 <= i < |cps| ==> cps[i].results == []
    requires ConfigsOffer(cps, 1)
    ensures var r1 := RoundFixed(cps, map[], compileFn, timeOp);
      r1.Ok? && RoundFixed(r1.value.cps, r1.value.cache, compileFn, timeOp).Ok? ==>
        RoundFixed(r1.value.cps, r1.value.cache, compileFn, timeOp).value.cps == []
  {
    var r1 := RoundFixed(cps, map[], compileFn, timeOp);
    if r1.Ok? {
      var staged := AddAll(cps, map[], |cps|);
      FirstRoundAdds(cps, |cps|);
      var ran := Ran(cps, map[], compileFn);
      assert forall i :: 0 <= i < |cps| ==> FirstRoundResults(cps, ran, i) by {
        forall i | 0 <= i < |cps|
          ensures FirstRoundResults(cps, ran, i)
        {
          assert FirstRoundResults(cps, staged.plans, i);
          assert SameExceptResults(ran[i], staged.plans[i]);
        }
      }
      FirstRoundSolvesFixed(cps, ran, staged.cache, timeOp, |ran|);
      KeptAreSolved(cps, ran, r1.value.cache);
      SecondRoundEmpties(r1.value.cps, r1.value.cache, compileFn);
    }
  }

  /** The corrected benchmark resolves the shared single-solution problem in two rounds. */
  lemma SingleSolutionResolvedFixed()
    ensures var r1 := RoundFixed(SharedSingleSolution(), map[], AlwaysCompiles, NoTime);
      r1.Ok? && RoundFixed(r1.value.cps, r1.value.cache, AlwaysCompiles, NoTime).Ok? ==>
        RoundFixed(r1.value.cps, r1.value.cache, AlwaysCompiles, NoTime).value.cps == []
  {
    TwoRoundsResolveAllFixed(SharedSingleSolution(), AlwaysCompiles, NoTime);
  }

  // ---------------------------------------------------------------------------------------
  // compile_ops::apply
  // ---------------------------------------------------------------------------------------

  /** An instruction of the module: its operator name and, for a precompile_op, the wrapped operator's name. */
  datatype Instruction = Instruction(name: string, op: string)

  const PrecompileOp: string := "gpu::precompile_op"

  /** The plans apply adds while walking instructions 0 .. n-1. */
  function Precompiled(instrs: seq<Instruction>, n: nat): seq<Plan>
    requires n <= |instrs|
  {
    if n == 0 then []
    else Precompiled(instrs, n - 1)
         + (if instrs[n - 1].name == PrecompileOp then [Plan(instrs[n - 1].op, n - 1, None, [])] else [])
  }

  /**
   * The walk adds one plan per gpu::precompile_op, in instruction order, with the wrapped
   * operator's name, no config and no results yet, and nothing for other instructions.
   */
  lemma {:induction false} PrecompiledSelects(instrs: seq<Instruction>, n: nat)
    requires n <= |instrs|
    ensures forall i :: 0 <= i < |Precompiled(instrs, n)| ==>
              var p := Precompiled(instrs, n)[i];
              p.ins < n && instrs[p.ins].name == PrecompileOp && p == Plan(instrs[p.ins].op, p.ins, None, [])
    ensures forall i, j :: 0 <= i < j < |Precompiled(instrs, n)| ==>
              Precompiled(instrs, n)[i].ins < Precompiled(instrs, n)[j].ins
    ensures forall m :: 0 <= m < n && instrs[m].name == PrecompileOp ==>
              exists i :: 0 <= i < |Precompiled(instrs, n)| && Precompiled(instrs, n)[i].ins == m
  {
    if n > 0 {
      PrecompiledSelects(instrs, n - 1);
      var prefix := Precompiled(instrs, n - 1);
      var cps := Precompiled(instrs, n);
      assert forall i :: 0 <= i < |prefix| ==> cps[i] == prefix[i];
      assert instrs[n - 1].name == PrecompileOp ==> cps[|prefix|].ins == n - 1;
    }
  }

  /** The plans after update_configs: each takes the config of its instruction. */
  function Configured(cps: seq<Plan>, getConfig: nat -> Option<TuningConfig>): (r: seq<Plan>)
    ensures |r| == |cps|
    ensures forall i :: 0 <= i < |r| ==> r[i] == cps[i].(config := getConfig(cps[i].ins))
  {
    seq(|cps|, i requires 0 <= i < |cps| => cps[i].(config := getConfig(cps[i].ins)))
  }

  /** Every solution a config offers is a real value. */
  ghost predicate ConfigNonNull(config: Option<TuningConfig>)
  {
    config.Some? ==> forall k :: 0 <= k < |config.value.solutions| ==> config.value.solutions[k] != Null
  }

  /** What apply does: the plans of the precompile_ops, configured, then two compiles. */
  function ApplyRun(instrs: seq<Instruction>, getConfig: nat -> Option<TuningConfig>,
                    compileFn: (nat, Value) -> Option<int>, timeOp: CompiledResult -> nat): Result<RoundState>
  {
    var cps := Configured(Precompiled(instrs, |instrs|), getConfig);
    match Round(cps, map[], compileFn, timeOp)
    case Err(m) => Err(m)
    case Ok(r1) => Round(r1.cps, r1.cache, compileFn, timeOp)
  }

  /** The plans a round keeps still offer only real solutions. */
  lemma RoundKeepsSolutions(cps: seq<Plan>, cache: map<Key, Value>, compileFn: (nat, Value) -> Option<int>,
                            timeOp: CompiledResult -> nat)
    requires forall i :: 0 <= i < |cps| ==> SolutionsNonNull(cps[i])
    ensures Round(cps, cache, compileFn, timeOp).Ok? ==>
              forall i :: 0 <= i < |Round(cps, cache, compileFn, timeOp).value.cps| ==>
                SolutionsNonNull(Round(cps, cache, compileFn, timeOp).value.cps[i])
  {
    var ran := Ran(cps, cache, compileFn);
    KeptMembers(ran);
    forall q | q in Kept(ran)
      ensures SolutionsNonNull(q)
    {
      var i :| 0 <= i < |ran| && ran[i] == q;
      assert SolutionsNonNull(cps[i]);
    }
  }

  /** Plans offering only real solutions still do after a round's compiles, so insert's assertion holds. */
  lemma RanChosenNonNull(cps: seq<Plan>, cache: map<Key, Value>, compileFn: (nat, Value) -> Option<int>,
                         timeOp: CompiledResult -> nat)
    requires forall i :: 0 <= i < |cps| ==> SolutionsNonNull(cps[i])
    ensures forall i :: 0 <= i < |cps| ==> ChosenNonNull(Ran(cps, cache, compileFn)[i], timeOp)
  {
    var ran := Ran(cps, cache, compileFn);
    forall i | 0 <= i < |cps|
      ensures ChosenNonNull(ran[i], timeOp)
    {
      assert SameExceptResults(ran[i], cps[i]);
      SolutionsNonNullChosen(ran[i], timeOp);
    }
  }

  /** Configs whose solutions are real values give plans whose solutions are real values. */
  lemma ConfiguredNonNull(plans: seq<Plan>, getConfig: nat -> Option<TuningConfig>)
    requires forall k :: 0 <= k < |plans| ==> ConfigNonNull(getConfig(plans[k].ins))
    ensures forall k :: 0 <= k < |plans| ==> SolutionsNonNull(Configured(plans, getConfig)[k])
  {
  }

  /** apply's walk over the module: a fresh manager with one plan per gpu::precompile_op. */
  method CollectPlans(instrs: seq<Instruction>) returns (cm: CompileManager)
    ensures fresh(cm) && fresh(cm.pc)
    ensures cm.cps == Precompiled(instrs, |instrs|) && cm.pc.cache == map[]
  {
    cm := new CompileManager();
    var i := 0;
    while i < |instrs|
      invariant 0 <= i <= |instrs|
      invariant fresh(cm) && fresh(cm.pc)
      invariant cm.cps == Precompiled(instrs, i) && cm.pc.cache == map[]
    {
      if instrs[i].name == PrecompileOp {
        cm.AddPlan(Plan(instrs[i].op, i, None, []));
      }
      i := i + 1;
    }
  }

  /**
   * compile_ops::apply: a compile manager gets one plan per gpu::precompile_op, their
   * configs, and two compiles; the plans the second compile leaves are returned. A failure
   * in either compile ends apply with that failure.
   */
  method Apply(instrs: seq<Instruction>, getConfig: nat -> Option<TuningConfig>,
               compileFn: (nat, Value) -> Option<int>, timeOp: CompiledResult -> nat)
    returns (outcome: Outcome, leftover: seq<Plan>)
    requires forall m :: 0 <= m < |instrs| ==> ConfigNonNull(getConfig(m))
    ensures var r := ApplyRun(instrs, getConfig, compileFn, timeOp);
      && (outcome.Pass? <==> r.Ok?)
      && (r.Ok? ==> leftover == r.value.cps)
      && (r.Err? ==> outcome == Fail(r.message))
  {
    var cm := CollectPlans(instrs);
    ghost var plans := cm.cps;
    PrecompiledSelects(instrs, |instrs|);
    cm.UpdateConfigs(getConfig);
    ghost var cps := Configured(plans, getConfig);
    assert cm.cps == cps;
    ConfiguredNonNull(plans, getConfig);
    RanChosenNonNull(cps, map[], compileFn, timeOp);
    ghost var r1 := Round(cps, map[], compileFn, timeOp);
    outcome := cm.Compile(compileFn, timeOp);
    if outcome.Fail? {
      leftover := cm.cps;
      return;
    }
    assert cm.cps == r1.value.cps && cm.pc.cache == r1.value.cache;
    RoundKeepsSolutions(cps, map[], compileFn, timeOp);
    RanChosenNonNull(cm.cps, cm.pc.cache, compileFn, timeOp);
    outcome := cm.Compile(compileFn, timeOp);
    leftover := cm.cps;
  }

  /**
   * apply's closing assertion: when every tuning config offers at least two real solutions
   * and apply succeeds, no plan is left.
   */
  lemma ApplyLeavesNothing(instrs: seq<Instruction>, getConfig: nat -> Option<TuningConfig>,
                           compileFn: (nat, Value) -> Option<int>, timeOp: CompiledResult -> nat)
    requires forall m :: 0 <= m < |instrs| ==>
               ConfigNonNull(getConfig(m)) && (getConfig(m).Some? ==> |getConfig(m).value.solutions| >= 2)
    ensures ApplyRun(instrs, getConfig, compileFn, timeOp).Ok? ==>
              ApplyRun(instrs, getConfig, compileFn, timeOp).value.cps == []
  {
    var cps := Configured(Precompiled(instrs, |instrs|), getConfig);
    PrecompiledSelects(instrs, |instrs|);
    assert ConfigsOffer(cps, 2) by {
      forall k | 0 <= k < |cps|
        ensures SolutionsNonNull(cps[k]) && (cps[k].config.Some? ==> |cps[k].config.value.solutions| >= 2)
      {
        assert ConfigNonNull(getConfig(Precompiled(instrs, |instrs|)[k].ins));
      }
    }
    TwoRoundsResolveAll(cps, compileFn, timeOp);
  }
}
