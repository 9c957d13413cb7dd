/**
 * The deprecated strategies of src/semsolver/strategies/strategy.cpp.
 * They run on the (F, a, μ) state, ask Infeasible for a tagged result
 * and treat its UNSAT as a refutation, and ask Decompose for a tagged
 * list of children that is only used when it is OK and carries a value.
 */
module LegacyStrategies {
  import opened OpResults
  import opened Verdicts
  import opened SemanticStates
  import DepthFirst
  import Frontier
  import Operators
  import opened Models
  import opened Semantics
  import opened Concretizations
  import Contracts

  /** A C++ `int`. */
  type Int32 = x: int | -0x8000_0000 <= x < 0x8000_0000

  /** The two operators a legacy strategy takes from its pipeline. */
  datatype LegacyPipeline = LegacyPipeline(infeasible: SemanticState -> VoidResult,
                                           decompose: SemanticState -> OpResult<seq<SemanticState>>)

  /**
   * How each loop handles a popped state: pruned when Infeasible answers
   * UNSAT, dropped when Decompose is not OK or has no value, a leaf when
   * Decompose returns exactly one child printing like the state, and
   * otherwise replaced by all the returned children.
   */
  function Classify(p: LegacyPipeline, s: SemanticState): (v: Verdict<SemanticState>)
    ensures v.Refuted? <==> p.infeasible(s).status == UNSAT
    ensures v.Dropped? <==> (p.infeasible(s).status != UNSAT
                             && (p.decompose(s).status != OK || p.decompose(s).value.None?))
    ensures v.Leaf? <==> (p.infeasible(s).status != UNSAT && p.decompose(s).status == OK
                          && p.decompose(s).value.Some? && |p.decompose(s).value.value| == 1
                          && ToString(p.decompose(s).value.value[0]) == ToString(s))
    ensures v.Branch? ==> v.children == p.decompose(s).value.value
  {
    if p.infeasible(s).status == UNSAT then Refuted
    else
      var d := p.decompose(s);
      if d.status != OK || d.value.None? then Dropped
      else if |d.value.value| == 1 && ToString(d.value.value[0]) == ToString(s) then Leaf
      else Branch(d.value.value)
  }

  function Classifier(p: LegacyPipeline): (r: SemanticState -> Verdict<SemanticState>)
  {
    s => Classify(p, s)
  }

  /**
   * `static_cast<size_t>(maxWidth)` on a 64-bit target: a negative width
   * wraps around to at least 2^64 - 2^31, which no result reaches.
   */
  function WidthBound(maxWidth: Int32): (b: nat)
    ensures maxWidth >= 0 ==> b == maxWidth
    ensures maxWidth < 0 ==> b >= 0x1_0000_0000_0000_0000 - 0x8000_0000
  {
    if maxWidth >= 0 then maxWidth else 0x1_0000_0000_0000_0000 + maxWidth
  }

  /** `LegacyDepthFirstStrategy`. */
  class LegacyDepthFirstStrategy {
    const maxDepth: Int32

    constructor (maxDepth: Int32 := 1000)
      ensures this.maxDepth == maxDepth
    {
      this.maxDepth := maxDepth;
    }

    /**
     * `execute(σ₀, pipeline)`: emits exactly the depth-first leaves of σ₀,
     * nothing for a negative depth bound, and only states Infeasible did
     * not refute and Decompose left whole.
     */
    method Execute(initial: SemanticState, pipeline: LegacyPipeline) returns (result: seq<SemanticState>)
      ensures result == DepthFirst.Leaves(Classifier(pipeline), maxDepth, initial, 0)
      ensures maxDepth < 0 ==> result == []
      ensures forall x | x in result :: pipeline.infeasible(x).status != UNSAT && Classify(pipeline, x).Leaf?
    {
      assert SemanticStates.Clone(initial) == initial;
      result := DepthFirst.DepthFirstSearch(Classifier(pipeline), maxDepth, SemanticStates.Clone(initial));
    }
  }

  /** `LegacyBreadthFirstStrategy`. */
  class LegacyBreadthFirstStrategy {
    const maxWidth: Int32

    constructor (maxWidth: Int32 := 1000)
      ensures this.maxWidth == maxWidth
    {
      this.maxWidth := maxWidth;
    }

    /**
     * `execute(σ₀, pipeline)`: a prefix of the unbounded breadth-first
     * run, cut once the result holds `maxWidth` states; `rank` only
     * witnesses that the run ends.
     */
    method Execute(initial: SemanticState, pipeline: LegacyPipeline, ghost rank: SemanticState -> nat)
      returns (result: seq<SemanticState>)
      requires Frontier.RankDecreases(Classifier(pipeline), rank)
      ensures result <= Frontier.Drain(Classifier(pipeline), rank, [initial])
      ensures |result| < WidthBound(maxWidth) ==> result == Frontier.Drain(Classifier(pipeline), rank, [initial])
      ensures maxWidth >= 0 ==> |result| <= maxWidth
      ensures maxWidth == 0 ==> result == []
      ensures forall x | x in result :: pipeline.infeasible(x).status != UNSAT && Classify(pipeline, x).Leaf?
    {
      assert SemanticStates.Clone(initial) == initial;
      result := Frontier.BreadthFirstSearch(Classifier(pipeline), rank, WidthBound(maxWidth), SemanticStates.Clone(initial));
    }
  }

  /** `LegacyBestFirstStrategy`; the heuristic's `double` is modelled as an integer. */
  class LegacyBestFirstStrategy {
    const heuristic: SemanticState -> int

    constructor (heuristic: SemanticState -> int)
      ensures this.heuristic == heuristic
    {
      this.heuristic := heuristic;
    }

    /** `execute(σ₀, pipeline)`: the best-first run from σ₀ to an empty frontier. */
    method Execute(initial: SemanticState, pipeline: LegacyPipeline, ghost rank: SemanticState -> nat)
      returns (result: seq<SemanticState>)
      requires Frontier.RankDecreases(Classifier(pipeline), rank)
      ensures result == Frontier.BestDrain(Classifier(pipeline), rank, heuristic, [initial])
      ensures forall x | x in result :: pipeline.infeasible(x).status != UNSAT && Classify(pipeline, x).Leaf?
    {
      assert SemanticStates.Clone(initial) == initial;
      result := Frontier.BestFirstSearch(Classifier(pipeline), rank, heuristic, SemanticStates.Clone(initial));
    }
  }

  // ------------------------------------------------------- Default operators

  /** The pipeline of the default Infeasible (always UNKNOWN) and Decompose (one clone). */
  const DefaultPipeline := LegacyPipeline(Operators.DefaultInfeasibleOp, Operators.DefaultDecomposeOp)

  /** Under the default operators every state is a leaf. */
  lemma DefaultPipelineMakesLeaves(s: SemanticState)
    ensures Classify(DefaultPipeline, s).Leaf?
  {
    var d := Operators.DefaultDecomposeOp(s);
    assert d.status == OK && d.value.Some? && |d.value.value| == 1;
    assert ToString(d.value.value[0]) == ToString(s);
  }

  /**
   * With the default operators, depth-first with `maxDepth >= 0`,
   * breadth-first with `maxWidth >= 1` and best-first each return exactly
   * the initial state.
   */
  lemma DefaultPipelineReturnsInitial(initial: SemanticState, maxDepth: int, h: SemanticState -> int)
    requires maxDepth >= 0
    ensures DepthFirst.Leaves(Classifier(DefaultPipeline), maxDepth, initial, 0) == [initial]
    ensures Frontier.RankDecreases(Classifier(DefaultPipeline), _ => 0)
    ensures Frontier.Drain(Classifier(DefaultPipeline), _ => 0, [initial]) == [initial]
    ensures Frontier.BestDrain(Classifier(DefaultPipeline), _ => 0, h, [initial]) == [initial]
  {
    DefaultPipelineMakesLeaves(initial);
    forall s ensures !Classifier(DefaultPipeline)(s).Branch? {
      DefaultPipelineMakesLeaves(s);
    }
    var rank: SemanticState -> nat := _ => 0;
    assert [initial][1..] == [];
    assert Frontier.Drain(Classifier(DefaultPipeline), rank, [initial]) == [initial] + Frontier.Drain(Classifier(DefaultPipeline), rank, []);
    assert Frontier.ArgMin(h, [initial]) == 0;
    assert [initial][..0] + [initial][1..] == [];
  }

  /** If Infeasible answers UNSAT on every state, all three strategies return nothing. */
  lemma AlwaysRefutedReturnsNothing(p: LegacyPipeline, initial: SemanticState, maxDepth: int,
                                    rank: SemanticState -> nat, h: SemanticState -> int)
    requires forall s :: p.infeasible(s).status == UNSAT
    ensures DepthFirst.Leaves(Classifier(p), maxDepth, initial, 0) == []
    ensures Frontier.RankDecreases(Classifier(p), rank)
    ensures Frontier.Drain(Classifier(p), rank, [initial]) == []
    ensures Frontier.BestDrain(Classifier(p), rank, h, [initial]) == []
  {
    assert forall s :: Classifier(p)(s) == Refuted;
    DepthFirst.NoLeafNoResult(Classifier(p), maxDepth, initial, 0);
    Frontier.NoLeafDrainsNothing(Classifier(p), rank, [initial]);
    Frontier.NoLeafBestDrainsNothing(Classifier(p), rank, h, [initial]);
  }

  // ------------------------------------------------------- Soundness

  /**
   * With a refutation-sound Infeasible (Axiom I) and a covering Decompose
   * (Axiom D) that always answers OK with a value, a run to an empty
   * frontier loses no model: every model of σ₀ is a model of some emitted
   * state, for breadth-first and for best-first.
   */
  lemma SoundPipelineLosesNothing(p: LegacyPipeline, interpret: Interpretation, gamma: Concretization,
                                  rank: SemanticState -> nat, h: SemanticState -> int,
                                  initial: SemanticState, m: ConcreteModel)
    requires Contracts.RefutationSound(p.infeasible, interpret, gamma)
    requires Contracts.DecomposeCovering(p.decompose, interpret, gamma)
    requires forall s :: p.decompose(s).status == OK && p.decompose(s).value.Some?
    requires Frontier.RankDecreases(Classifier(p), rank)
    requires m in Concretize(interpret, gamma, initial)
    ensures exists x :: x in Frontier.Drain(Classifier(p), rank, [initial]) && m in Concretize(interpret, gamma, x)
    ensures exists x :: x in Frontier.BestDrain(Classifier(p), rank, h, [initial])
                        && m in Concretize(interpret, gamma, x)
  {
    var conc := s => Concretize(interpret, gamma, s);
    forall s ensures (Classifier(p)(s).Refuted? ==> conc(s) == {}) {
      if p.infeasible(s).status == UNSAT {
        assert StateIsEmpty(interpret, gamma, s);
      }
    }
    forall s | Classifier(p)(s).Branch?
      ensures Contracts.Covers(interpret, gamma, s, Classifier(p)(s).children)
    {
      assert Classify(p, s).children == p.decompose(s).value.value;
    }
    assert Frontier.LosesNothing(Classifier(p), conc);
    Frontier.RunsLoseNothing(Classifier(p), rank, h, conc, initial, m);
  }

  /**
   * A Decompose that fails (or answers OK without a value) on a state
   * Infeasible did not refute makes every strategy discard that state,
   * whatever models it has.
   */
  lemma FailedDecomposeDropsTheState(p: LegacyPipeline, initial: SemanticState, maxDepth: int,
                                     rank: SemanticState -> nat, h: SemanticState -> int)
    requires p.infeasible(initial).status != UNSAT
    requires p.decompose(initial).status != OK || p.decompose(initial).value.None?
    requires Frontier.RankDecreases(Classifier(p), rank)
    ensures DepthFirst.Leaves(Classifier(p), maxDepth, initial, 0) == []
    ensures Frontier.Drain(Classifier(p), rank, [initial]) == []
    ensures Frontier.BestDrain(Classifier(p), rank, h, [initial]) == []
  {
    assert Classify(p, initial) == Dropped;
    assert [initial][1..] == [];
    assert Frontier.ArgMin(h, [initial]) == 0;
    assert [initial][..0] + [initial][1..] == [];
  }
}
