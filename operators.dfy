/**
 * The operators of src/operators/: refinement and relaxation on formulas,
 * restriction of the (F, a) state, and the default Decompose, Project, Lift
 * and Infeasible operators with the CAD-backed Infeasible wrapper, which
 * work on the (F, a, μ) state and answer with tagged results.
 */
module Operators {
  import opened OpResults
  import opened Formulas
  import opened Domain
  import opened Valuations
  import opened Models
  import opened Semantics
  import opened Concretizations
  import opened SemanticStates
  import opened PairStates
  import opened Contracts

  // ---------------------------------------------------------------- Refine

  /** `Refine::apply(Fα, R)`: the conjunction of the two clones. */
  function RefineApply(relaxed: Formula, constraint: Formula): (r: Formula)
    ensures Formulas.ToString(r)
         == "(and " + Formulas.ToString(relaxed) + " " + Formulas.ToString(constraint) + ")"
  {
    PairApplication("and", relaxed, constraint);
    Conjunction([Formulas.Clone(relaxed), Formulas.Clone(constraint)])
  }

  /**
   * `DefaultRefine::generate(F, Fα, M, semantics)`: "(not M)" over the
   * printed model; only M is read.
   */
  function DefaultRefineGenerate(original: Formula, relaxed: Formula, spurious: ConcreteModel,
                                 interpret: Interpretation): (r: Formula)
    reads spurious
    ensures StripNegation(r.expression) == Some(ConcreteFormula(Render(spurious.content)))
  {
    NegationRoundTrip(ConcreteFormula(Render(spurious.content)));
    Negation(ConcreteFormula(Render(spurious.content)))
  }

  /** The generated constraint depends on the spurious model alone. */
  lemma GenerateIgnoresFormulas(o1: Formula, r1: Formula, i1: Interpretation,
                                o2: Formula, r2: Formula, i2: Interpretation, m: ConcreteModel)
    ensures DefaultRefineGenerate(o1, r1, m, i1) == DefaultRefineGenerate(o2, r2, m, i2)
  {
  }

  /**
   * Under the placeholder `Model::satisfies`, the spurious model still
   * satisfies the constraint meant to exclude it, so the "M ⊭ R" half of
   * the refinement contract is not met.
   */
  lemma GeneratedConstraintNotExcluding(o: Formula, r: Formula, m: ConcreteModel, i: Interpretation)
    ensures DefaultSatisfies(m, DefaultRefineGenerate(o, r, m, i))
  {
  }

  // ----------------------------------------------------------------- Relax

  /** `Relax::isRelaxation(F, F', semantics)`: [[F]] ⊆ [[F']] up to `equals`. */
  method IsRelaxation(interpret: Interpretation, original: Formula, candidate: Formula) returns (r: bool)
    ensures r <==> ContainedUpToEquals(interpret(original), interpret(candidate))
    ensures IsEmpty(interpret(original)) ==> r
    ensures IsRelaxationOf(interpret, original, candidate) ==> r
  {
    r := CheckContainedUpToEquals(interpret(original), interpret(candidate));
    if IsEmpty(interpret(original)) {
      assert interpret(original) == {};
      EmptyIsContained(interpret(candidate));
    }
    if IsRelaxationOf(interpret, original, candidate) {
      SubsetIsContained(interpret(original), interpret(candidate));
    }
  }

  /** `DefaultRelax::apply(F)`: a copy of F. */
  function DefaultRelaxApply(f: Formula): (r: Formula)
    ensures IsEquivalent(r, f)
  {
    Formulas.Clone(f)
  }

  /** The identity relaxation meets Axiom A under every semantics. */
  lemma DefaultRelaxIsRelaxation(interpret: Interpretation, f: Formula)
    ensures IsRelaxationOf(interpret, f, DefaultRelaxApply(f))
    ensures ContainedUpToEquals(interpret(f), interpret(DefaultRelaxApply(f)))
  {
    assert DefaultRelaxApply(f) == f;
    SubsetIsContained(interpret(f), interpret(f));
  }

  // -------------------------------------------------------------- Restrict

  /** `Restrict::apply(G, a)` of some restriction operator. */
  type ElementRestriction = (Formula, Element) -> Element

  /**
   * `Restrict::applyToState(σ, G)`: keeps F and restricts a with the extra
   * formula G (not with F).
   */
  function RestrictApplyToState(restrict: ElementRestriction, s: PairState, extra: Formula): (r: PairState)
    ensures r.formula == s.formula
    ensures r.element == restrict(extra, s.element)
  {
    PairState(Formulas.Clone(s.formula), restrict(extra, s.element))
  }

  /** `DefaultRestrict::apply(G, a)`: a copy of a, whatever G is. */
  function DefaultRestrictApply(g: Formula, a: Element): (r: Element)
  {
    a
  }

  /** With the default operator, restricting a state changes nothing, not even its printed form. */
  lemma DefaultRestrictKeepsState(s: PairState, extra: Formula)
    ensures RestrictApplyToState(DefaultRestrictApply, s, extra) == s
    ensures PairStates.ToString(RestrictApplyToState(DefaultRestrictApply, s, extra)) == PairStates.ToString(s)
  {
  }

  /**
   * Soundness transfer: if the element restriction is sound for G
   * (γ(a') ⊆ γ(a) and γ(a) ∩ [[G]] ⊆ γ(a')) and every model of F is a
   * model of G, then restricting (F, a) with G keeps exactly the models of
   * the state.
   */
  lemma RestrictApplyToStateExact(interpret: Interpretation, gamma: Concretization,
                                  restrict: ElementRestriction, s: PairState, g: Formula)
    requires gamma(restrict(g, s.element)) <= gamma(s.element)
    requires gamma(s.element) * interpret(g) <= gamma(restrict(g, s.element))
    requires interpret(s.formula) <= interpret(g)
    ensures PairStates.Concretize(interpret, gamma, RestrictApplyToState(restrict, s, g))
         == PairStates.Concretize(interpret, gamma, s)
  {
    var t := RestrictApplyToState(restrict, s, g);
    var before := PairStates.Concretize(interpret, gamma, s);
    var after := PairStates.Concretize(interpret, gamma, t);
    forall m | m in before
      ensures m in after
    {
      assert m in gamma(s.element) * interpret(g);
    }
  }

  /**
   * Without F ⇒ G the transfer fails: restricting with an unrelated G can
   * drop every model of the state.
   */
  lemma RestrictWithUnrelatedFormulaLosesModels(interpret: Interpretation, gamma: Concretization,
                                                restrict: ElementRestriction, s: PairState, g: Formula,
                                                m: ConcreteModel)
    requires m in interpret(s.formula) && m in gamma(s.element)
    requires m !in gamma(restrict(g, s.element))
    ensures m !in PairStates.Concretize(interpret, gamma, RestrictApplyToState(restrict, s, g))
    ensures m in PairStates.Concretize(interpret, gamma, s)
  {
  }

  // ------------------------------------------------ Decompose, Project, Lift

  /** `DefaultDecomposeOp::apply(σ)`: OK with the one-element list [σ.clone()]. */
  function DefaultDecomposeOp(s: SemanticState): (r: OpResult<seq<SemanticState>>)
    ensures r.WellFormed() && r.status == OK && r.HasValue()
    ensures r.value == Some([s])
  {
    Ok([SemanticStates.Clone(s)])
  }

  /** The one-clone decomposition meets Axiom D under every semantics. */
  lemma DefaultDecomposeCovers(interpret: Interpretation, gamma: Concretization)
    ensures DecomposeCovering(DefaultDecomposeOp, interpret, gamma)
  {
    forall s | DefaultDecomposeOp(s).status == OK && DefaultDecomposeOp(s).value.Some?
      ensures Covers(interpret, gamma, s, DefaultDecomposeOp(s).value.value)
    {
      KeepingParentCovers(interpret, gamma, s, DefaultDecomposeOp(s).value.value, 0);
    }
  }

  /** `DefaultProjectOp::apply(σ, elim_vars)`: OK with a copy of σ. */
  function DefaultProjectOp(s: SemanticState, elimVars: seq<string>): (r: OpResult<SemanticState>)
    ensures r.WellFormed() && r.status == OK && r.HasValue()
    ensures r.value == Some(s)
  {
    Ok(SemanticStates.Clone(s))
  }

  /** `DefaultLiftOp::apply(low, high_context)`: OK with a copy of low. */
  function DefaultLiftOp(low: SemanticState, highContext: SemanticState): (r: OpResult<SemanticState>)
    ensures r.WellFormed() && r.status == OK && r.HasValue()
    ensures r.value == Some(low)
  {
    Ok(SemanticStates.Clone(low))
  }

  /** Projection ignores the variable list, lifting ignores the high context. */
  lemma ProjectLiftIgnoreExtraInputs(s: SemanticState, v1: seq<string>, v2: seq<string>,
                                     h1: SemanticState, h2: SemanticState)
    ensures DefaultProjectOp(s, v1) == DefaultProjectOp(s, v2)
    ensures DefaultLiftOp(s, h1) == DefaultLiftOp(s, h2)
  {
  }

  // ------------------------------------------------------------ Infeasible

  /** `DefaultInfeasibleOp::apply(σ)`: UNKNOWN for every state. */
  function DefaultInfeasibleOp(s: SemanticState): (r: VoidResult)
    ensures r.status == UNKNOWN && !r.HasValue() && r.witnessData.explanation == ""
  {
    VoidUnknown()
  }

  /** Never answering UNSAT, it prunes nothing and is sound under every semantics. */
  lemma DefaultInfeasibleSound(interpret: Interpretation, gamma: Concretization)
    ensures RefutationSound(DefaultInfeasibleOp, interpret, gamma)
  {
  }

  /**
   * `CadInfeasibleOp::apply(σ)`: one call to the backend's `refute`; its
   * UNSAT becomes UNSAT with the backend's reason as explanation, every
   * other status becomes UNKNOWN.
   */
  function CadInfeasibleOp(refute: SemanticState -> VoidResult, s: SemanticState): (r: VoidResult)
    ensures r.status == UNSAT <==> refute(s).status == UNSAT
    ensures r.status == UNSAT ==> r.witnessData.explanation == refute(s).witnessData.explanation
    ensures r.status != UNSAT ==> r.status == UNKNOWN && r.witnessData == DefaultWitness
  {
    var b := refute(s);
    if b.status == UNSAT then VoidUnsat(Witness(b.witnessData.explanation, false)) else VoidUnknown()
  }

  /** The wrapper is exactly as sound as the backend it wraps. */
  lemma CadInfeasibleSoundIff(refute: SemanticState -> VoidResult, interpret: Interpretation,
                              gamma: Concretization)
    ensures RefutationSound(s => CadInfeasibleOp(refute, s), interpret, gamma)
        <==> RefutationSound(refute, interpret, gamma)
  {
    var wrapped := s => CadInfeasibleOp(refute, s);
    if RefutationSound(refute, interpret, gamma) {
      forall s | wrapped(s).status == UNSAT
        ensures SemanticStates.StateIsEmpty(interpret, gamma, s)
      {
        assert refute(s).status == UNSAT;
      }
    }
    if RefutationSound(wrapped, interpret, gamma) {
      forall s | refute(s).status == UNSAT
        ensures SemanticStates.StateIsEmpty(interpret, gamma, s)
      {
        assert wrapped(s).status == UNSAT;
      }
    }
  }
}
