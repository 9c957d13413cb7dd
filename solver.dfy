/**
 * `SemSolver` (src/semsolver/solver.cpp): a strategy callback, a kernel, a
 * search engine and a search policy, wired together by `solve`.  The
 * kernel is stored and never used; the engine runs the strategy on the
 * initial state.
 */
module Solvers {
  import opened SemanticStates
  import opened SearchEngines

  /** `DefaultSemKernel`: it holds nothing; its checks are the functions of module `Kernel`. */
  datatype DefaultSemKernel = DefaultSemKernel

  /** The placeholder strategy of `createDefault`: UNKNOWN for every state. */
  function DefaultStrategy(s: SemanticState): (r: SearchResult)
  {
    UNKNOWN
  }

  class SemSolver<K> {
    const strategy: SemanticState -> SearchResult
    const kernel: K
    const searchEngine: DefaultSearchEngine
    const searchPolicy: SearchPolicy

    /** `SemSolver(strategy, kernel, searchEngine, searchPolicy = DFS)`: stores the four components unchanged. */
    constructor (strategy: SemanticState -> SearchResult, kernel: K, searchEngine: DefaultSearchEngine,
                 searchPolicy: SearchPolicy := DFS)
      ensures this.strategy == strategy && this.kernel == kernel
      ensures this.searchEngine == searchEngine && this.searchPolicy == searchPolicy
    {
      this.strategy := strategy;
      this.kernel := kernel;
      this.searchEngine := searchEngine;
      this.searchPolicy := searchPolicy;
    }

    /**
     * `solve(σ₀)`: the engine's answer for the strategy on σ₀ under the
     * stored policy.  The kernel plays no part in it, and the answer is
     * SAT or UNSAT only when the strategy gives that answer on σ₀.
     */
    method Solve(initial: SemanticState) returns (r: SearchResult)
      modifies searchEngine
      ensures r == Outcome(strategy, initial)
      ensures r != ERROR && (IsDefinite(r) <==> IsDefinite(strategy(initial)))
      ensures searchEngine.currentPolicy == searchPolicy && searchEngine.queue == []
    {
      r := searchEngine.Execute(initial, strategy, searchPolicy);
      OutcomeReportsOnlyStrategyVerdicts(strategy, initial);
    }
  }

  /** `SolverFactory::createDefault()`: the placeholder strategy, the default kernel and engine, DFS. */
  method CreateDefault() returns (s: SemSolver<DefaultSemKernel>)
    ensures fresh(s) && fresh(s.searchEngine)
    ensures s.strategy == DefaultStrategy && s.kernel == DefaultSemKernel && s.searchPolicy == DFS
    ensures s.searchEngine.queue == []
  {
    var engine := new DefaultSearchEngine(DFS);
    s := new SemSolver(DefaultStrategy, DefaultSemKernel, engine, DFS);
  }

  /** The default solver answers UNKNOWN for every initial state. */
  method SolveWithDefault(initial: SemanticState) returns (r: SearchResult)
    ensures r == UNKNOWN
  {
    var solver := CreateDefault();
    r := solver.Solve(initial);
  }

  /** Two solvers that differ only in their kernels give the same answer. */
  method KernelIsNotConsulted<K1, K2>(strategy: SemanticState -> SearchResult, k1: K1, k2: K2,
                                      policy: SearchPolicy, initial: SemanticState)
    returns (r1: SearchResult, r2: SearchResult)
    ensures r1 == r2 == Outcome(strategy, initial)
  {
    var e1 := new DefaultSearchEngine(policy);
    var e2 := new DefaultSearchEngine(policy);
    var s1 := new SemSolver(strategy, k1, e1, policy);
    var s2 := new SemSolver(strategy, k2, e2, policy);
    r1 := s1.Solve(initial);
    r2 := s2.Solve(initial);
  }
}
