/**
 * The orchestration strategies of src/orchestration/strategy.cpp.  They run
 * on the (F, a) state, prune a state when the pipeline's `Infeasible::check`
 * answers true, and otherwise replace it by what `Decompose::applyToState`
 * returns, keeping it as a leaf when that is one state printing like it.
 * Unlike the legacy strategies nothing is ever dropped.
 */
module Orchestration {
  import opened Verdicts
  import opened Models
  import opened Semantics
  import opened Concretizations
  import opened PairStates
  import DepthFirst
  import Frontier
  import LegacyStrategies

  /**
   * What a strategy takes from its `Pipeline`: the infeasibility check,
   * the decomposition of a state, and the shared semantics and
   * concretization handed to the check.
   */
  datatype Pipeline = Pipeline(check: (PairState, Interpretation, Concretization) -> bool,
                               applyToState: PairState -> seq<PairState>,
                               semantics: Interpretation,
                               gamma: Concretization)

  /** Whether the pipeline's check refutes `s`. */
  predicate Refutes(p: Pipeline, s: PairState)
  {
    p.check(s, p.semantics, p.gamma)
  }

  /**
   * How each loop handles a popped state: pruned when the check answers
   * true, a leaf when `applyToState` returns exactly one state printing
   * like it, and otherwise replaced by the returned states (possibly none).
   */
  function Classify(p: Pipeline, s: PairState): (v: Verdict<PairState>)
    ensures v.Refuted? <==> Refutes(p, s)
    ensures !v.Dropped?
    ensures v.Leaf? <==> (!Refutes(p, s) && |p.applyToState(s)| == 1
                          && ToString(p.applyToState(s)[0]) == ToString(s))
    ensures v.Branch? ==> v.children == p.applyToState(s)
  {
    if Refutes(p, s) then Refuted
    else
      var d := p.applyToState(s);
      if |d| == 1 && ToString(d[0]) == ToString(s) then Leaf
      else Branch(d)
  }

  function Classifier(p: Pipeline): (r: PairState -> Verdict<PairState>)
  {
    s => Classify(p, s)
  }

  /** `DepthFirstStrategy`. */
  class DepthFirstStrategy {
    const maxDepth: LegacyStrategies.Int32

    constructor (maxDepth: LegacyStrategies.Int32 := 1000)
      ensures this.maxDepth == maxDepth
    {
      this.maxDepth := maxDepth;
    }

    /**
     * `execute(σ₀, pipeline)`: emits exactly the depth-first leaves of σ₀,
     * nothing for a negative depth bound, and only states the check did not
     * refute and `applyToState` left whole.
     */
    method Execute(initial: PairState, pipeline: Pipeline) returns (result: seq<PairState>)
      ensures result == DepthFirst.Leaves(Classifier(pipeline), maxDepth, initial, 0)
      ensures maxDepth < 0 ==> result == []
      ensures forall x | x in result :: !Refutes(pipeline, x) && Classify(pipeline, x).Leaf?
    {
      assert PairStates.Clone(initial) == initial;
      result := DepthFirst.DepthFirstSearch(Classifier(pipeline), maxDepth, PairStates.Clone(initial));
    }
  }

  /** `BreadthFirstStrategy`. */
  class BreadthFirstStrategy {
    const maxWidth: LegacyStrategies.Int32

    constructor (maxWidth: LegacyStrategies.Int32 := 1000)
      ensures this.maxWidth == maxWidth
    {
      this.maxWidth := maxWidth;
    }

    /**
     * `execute(σ₀, pipeline)`: a prefix of the unbounded breadth-first
     * run, cut once the result holds `maxWidth` states; `rank` only
     * witnesses that the run ends.
     */
    method Execute(initial: PairState, pipeline: Pipeline, ghost rank: PairState -> nat)
      returns (result: seq<PairState>)
      requires Frontier.RankDecreases(Classifier(pipeline), rank)
      ensures result <= Frontier.Drain(Classifier(pipeline), rank, [initial])
      ensures |result| < LegacyStrategies.WidthBound(maxWidth) ==>
                result == Frontier.Drain(Classifier(pipeline), rank, [initial])
      ensures maxWidth >= 0 ==> |result| <= maxWidth
      ensures maxWidth == 0 ==> result == []
      ensures forall x | x in result :: !Refutes(pipeline, x) && Classify(pipeline, x).Leaf?
    {
      assert PairStates.Clone(initial) == initial;
      result := Frontier.BreadthFirstSearch(Classifier(pipeline), rank, LegacyStrategies.WidthBound(maxWidth),
                                            PairStates.Clone(initial));
    }
  }

  /** `BestFirstStrategy`; the heuristic's `double` is modelled as an integer. */
  class BestFirstStrategy {
    const heuristic: PairState -> int

    constructor (heuristic: PairState -> int)
      ensures this.heuristic == heuristic
    {
      this.heuristic := heuristic;
    }

    /** `execute(σ₀, pipeline)`: the best-first run from σ₀ to an empty frontier. */
    method Execute(initial: PairState, pipeline: Pipeline, ghost rank: PairState -> nat)
      returns (result: seq<PairState>)
      requires Frontier.RankDecreases(Classifier(pipeline), rank)
      ensures result == Frontier.BestDrain(Classifier(pipeline), rank, heuristic, [initial])
      ensures forall x | x in result :: !Refutes(pipeline, x) && Classify(pipeline, x).Leaf?
    {
      assert PairStates.Clone(initial) == initial;
      result := Frontier.BestFirstSearch(Classifier(pipeline), rank, heuristic, PairStates.Clone(initial));
    }
  }

  // ------------------------------------------------------- Soundness

  /** Axiom I for the orchestration check: true only on a state with no models. */
  ghost predicate CheckSound(p: Pipeline)
  {
    forall s :: Refutes(p, s) ==> StateIsEmpty(p.semantics, p.gamma, s)
  }

  /** Axiom D for `applyToState`: the returned states cover the state. */
  ghost predicate ApplyCovers(p: Pipeline)
  {
    forall s ::
      forall m | m in Concretize(p.semantics, p.gamma, s) ::
        exists i :: 0 <= i < |p.applyToState(s)| && m in Concretize(p.semantics, p.gamma, p.applyToState(s)[i])
  }

  /**
   * With a sound check and a covering decomposition, a run to an empty
   * frontier loses no model: every model of σ₀ is a model of some emitted
   * state, for breadth-first and for best-first.
   */
  lemma SoundPipelineLosesNothing(p: Pipeline, rank: PairState -> nat, h: PairState -> int,
                                  initial: PairState, m: ConcreteModel)
    requires CheckSound(p) && ApplyCovers(p)
    requires Frontier.RankDecreases(Classifier(p), rank)
    requires m in Concretize(p.semantics, p.gamma, initial)
    ensures exists x :: x in Frontier.Drain(Classifier(p), rank, [initial])
                        && m in Concretize(p.semantics, p.gamma, x)
    ensures exists x :: x in Frontier.BestDrain(Classifier(p), rank, h, [initial])
                        && m in Concretize(p.semantics, p.gamma, x)
  {
    var conc := s => Concretize(p.semantics, p.gamma, s);
    forall s ensures (Classifier(p)(s).Refuted? ==> conc(s) == {}) {
      if Refutes(p, s) {
        assert StateIsEmpty(p.semantics, p.gamma, s);
      }
    }
    assert Frontier.LosesNothing(Classifier(p), conc);
    Frontier.RunsLoseNothing(Classifier(p), rank, h, conc, initial, m);
  }

  // ------------------------------------------------------- Particular pipelines

  /** A pipeline whose check never refutes and whose decomposition returns a copy of the state. */
  function IdentityPipeline(semantics: Interpretation, gamma: Concretization): (p: Pipeline)
    ensures forall s :: !Refutes(p, s) && p.applyToState(s) == [PairStates.Clone(s)]
  {
    Pipeline((s, i, g) => false, s => [PairStates.Clone(s)], semantics, gamma)
  }

  /** Under that pipeline every state is a leaf, and all three strategies return σ₀ alone. */
  lemma IdentityPipelineReturnsInitial(semantics: Interpretation, gamma: Concretization,
                                       initial: PairState, maxDepth: int, h: PairState -> int)
    requires maxDepth >= 0
    ensures forall s :: Classify(IdentityPipeline(semantics, gamma), s).Leaf?
    ensures DepthFirst.Leaves(Classifier(IdentityPipeline(semantics, gamma)), maxDepth, initial, 0) == [initial]
    ensures Frontier.RankDecreases(Classifier(IdentityPipeline(semantics, gamma)), _ => 0)
    ensures Frontier.Drain(Classifier(IdentityPipeline(semantics, gamma)), _ => 0, [initial]) == [initial]
    ensures Frontier.BestDrain(Classifier(IdentityPipeline(semantics, gamma)), _ => 0, h, [initial]) == [initial]
  {
    var p := IdentityPipeline(semantics, gamma);
    forall s ensures Classify(p, s).Leaf? {
      assert ToString(p.applyToState(s)[0]) == ToString(s);
    }
    var rank: PairState -> nat := _ => 0;
    assert [initial][1..] == [];
    assert Frontier.Drain(Classifier(p), rank, [initial]) == [initial] + Frontier.Drain(Classifier(p), rank, []);
    assert Frontier.ArgMin(h, [initial]) == 0;
    assert [initial][..0] + [initial][1..] == [];
  }

  /** If the check refutes every state, all three strategies return nothing. */
  lemma AlwaysRefutedReturnsNothing(p: Pipeline, initial: PairState, maxDepth: int,
                                    rank: PairState -> nat, h: PairState -> int)
    requires forall s :: Refutes(p, s)
    ensures DepthFirst.Leaves(Classifier(p), maxDepth, initial, 0) == []
    ensures Frontier.RankDecreases(Classifier(p), rank)
    ensures Frontier.Drain(Classifier(p), rank, [initial]) == []
    ensures Frontier.BestDrain(Classifier(p), rank, h, [initial]) == []
  {
    assert forall s :: Classifier(p)(s) == Refuted;
    DepthFirst.NoLeafNoResult(Classifier(p), maxDepth, initial, 0);
    Frontier.NoLeafDrainsNothing(Classifier(p), rank, [initial]);
    Frontier.NoLeafBestDrainsNothing(Classifier(p), rank, h, [initial]);
  }

  /**
   * A decomposition that returns no states silently discards a state the
   * check did not refute, models and all: covering is what rules this out.
   */
  lemma EmptyDecompositionLosesTheState(p: Pipeline, initial: PairState, maxDepth: int, rank: PairState -> nat)
    requires !Refutes(p, initial) && p.applyToState(initial) == [] && maxDepth >= 0
    requires Frontier.RankDecreases(Classifier(p), rank)
    ensures DepthFirst.Leaves(Classifier(p), maxDepth, initial, 0) == []
    ensures Frontier.Drain(Classifier(p), rank, [initial]) == []
  {
    assert Classify(p, initial) == Branch([]);
    assert [initial][1..] + [] == [];
  }
}
