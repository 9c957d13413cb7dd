/**
 * The generic search engine (src/semsearch/search_engine.cpp): a FIFO queue
 * of states and a driver that pops states and runs a strategy callback on
 * each until the callback answers SAT or UNSAT.
 *
 * The callback is a pure function of the state.  In the C++ code it could
 * push further states through a captured reference to the engine; that
 * re-entrancy is not part of this model, so the queue only ever holds the
 * initial state.
 */
module SearchEngines {
  import OpResults
  import opened SemanticStates

  /** `SearchPolicy` (include/semsearch/search_engine.h). */
  datatype SearchPolicy = DFS | BFS | BEST_FIRST

  /** `SearchResult` (include/semsearch/search_engine.h). */
  datatype SearchResult = SAT | UNSAT | UNKNOWN | ERROR

  /** A definite answer ends the search. */
  predicate IsDefinite(r: SearchResult)
  {
    r == SAT || r == UNSAT
  }

  /** What `execute` answers for one initial state: the strategy's verdict if definite, else UNKNOWN. */
  function Outcome(strategy: SemanticState -> SearchResult, initial: SemanticState): (r: SearchResult)
  {
    if IsDefinite(strategy(initial)) then strategy(initial) else UNKNOWN
  }

  /**
   * The engine claims nothing of its own: it answers SAT or UNSAT only when
   * the strategy did, never answers ERROR (a strategy's ERROR becomes
   * UNKNOWN), and the policy plays no part.
   */
  lemma OutcomeReportsOnlyStrategyVerdicts(strategy: SemanticState -> SearchResult, initial: SemanticState)
    ensures Outcome(strategy, initial) != ERROR
    ensures Outcome(strategy, initial) == SAT <==> strategy(initial) == SAT
    ensures Outcome(strategy, initial) == UNSAT <==> strategy(initial) == UNSAT
    ensures strategy(initial) == ERROR ==> Outcome(strategy, initial) == UNKNOWN
  {
  }

  class DefaultSearchEngine {
    /** `stateQueue_`: front at index 0. */
    var queue: seq<SemanticState>
    /** `currentPolicy_`: recorded, never consulted. */
    var currentPolicy: SearchPolicy

    /** `DefaultSearchEngine(policy)`. */
    constructor (policy: SearchPolicy)
      ensures currentPolicy == policy && queue == []
    {
      currentPolicy := policy;
      queue := [];
    }

    /** `pushState(σ)`: enqueue at the back. */
    method PushState(s: SemanticState)
      modifies this
      ensures queue == old(queue) + [s]
      ensures currentPolicy == old(currentPolicy)
    {
      queue := queue + [s];
    }

    /** `popState()`: the front state, or null when the queue is empty. */
    method PopState() returns (r: OpResults.Option<SemanticState>)
      modifies this
      ensures old(queue) == [] ==> r.None? && queue == []
      ensures old(queue) != [] ==> r == OpResults.Some(old(queue)[0]) && queue == old(queue)[1..]
      ensures currentPolicy == old(currentPolicy)
    {
      if |queue| == 0 {
        return OpResults.None;
      }
      r := OpResults.Some(queue[0]);
      queue := queue[1..];
    }

    /** `isEmpty()`. */
    function IsEmpty(): (r: bool)
      reads this
      ensures r <==> queue == []
    {
      |queue| == 0
    }

    /** `size()`. */
    function Size(): (r: nat)
      reads this
      ensures r == 0 <==> IsEmpty()
      ensures r == |queue|
    {
      |queue|
    }

    /** `clear()`: pops until the queue is empty. */
    method Clear()
      modifies this
      ensures queue == [] && currentPolicy == old(currentPolicy)
    {
      while !IsEmpty()
        invariant currentPolicy == old(currentPolicy)
        decreases |queue|
      {
        var _ := PopState();
      }
    }

    /**
     * `execute(σ₀, strategy, policy)`: records the policy, empties the
     * queue, enqueues a copy of σ₀ and runs the strategy on each popped
     * state until it answers SAT or UNSAT; UNKNOWN once the queue is empty.
     */
    method Execute(initial: SemanticState, strategy: SemanticState -> SearchResult, policy: SearchPolicy)
      returns (r: SearchResult)
      modifies this
      ensures r == Outcome(strategy, initial)
      ensures currentPolicy == policy && queue == []
    {
      currentPolicy := policy;
      Clear();
      PushState(SemanticStates.Clone(initial));
      var ran := false;
      while !IsEmpty()
        invariant currentPolicy == policy
        invariant !ran ==> queue == [initial]
        invariant ran ==> queue == [] && !IsDefinite(strategy(initial))
        decreases |queue|
      {
        var current := PopState();
        if current.None? {
          assert false;
        }
        var result := strategy(current.value);
        if IsDefinite(result) {
          return result;
        }
        ran := true;
      }
      r := UNKNOWN;
    }
  }

  /** States leave the queue in the order they entered it. */
  method FirstInFirstOut(a: SemanticState, b: SemanticState)
    returns (first: OpResults.Option<SemanticState>, second: OpResults.Option<SemanticState>,
             third: OpResults.Option<SemanticState>)
    ensures first == OpResults.Some(a) && second == OpResults.Some(b) && third.None?
  {
    var engine := new DefaultSearchEngine(DFS);
    engine.PushState(a);
    engine.PushState(b);
    first := engine.PopState();
    second := engine.PopState();
    third := engine.PopState();
  }
}
