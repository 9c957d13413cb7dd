/**
 * The default operators of src/semcal/operators/ and the LP-backed
 * Infeasible wrapper.  They answer with tagged results whose witnesses
 * carry fixed explanations.
 */
module SemcalOperators {
  import opened OpResults
  import opened Formulas
  import opened Valuations
  import opened Models
  import opened Semantics
  import opened Concretizations
  import opened SemanticStates
  import opened Contracts
  import Operators

  const RefineExplanation: string := "Default implementation: constraint excluding spurious model"
  const RestrictExplanation: string := "Default implementation: no restriction applied"
  const RelaxExplanation: string := "Default implementation: identity relaxation"

  /**
   * `DefaultRefineOp::apply(F, Fα, M)`: OK with "(not M)" over the printed
   * spurious model; F and Fα are not read.
   */
  function DefaultRefineOp(original: Formula, relaxed: Formula, spurious: ConcreteModel): (r: OpResult<Formula>)
    reads spurious
    ensures r.WellFormed() && r.status == OK && r.HasValue()
    ensures StripNegation(r.value.value.expression) == Some(ConcreteFormula(Render(spurious.content)))
    ensures r.witnessData.explanation == RefineExplanation
  {
    NegationRoundTrip(ConcreteFormula(Render(spurious.content)));
    OpResult(OK, Some(Negation(ConcreteFormula(Render(spurious.content)))), Witness(RefineExplanation, false))
  }

  /** The new-layer refinement builds the same constraint as `DefaultRefine::generate`. */
  lemma RefineOpAgreesWithGenerate(original: Formula, relaxed: Formula, spurious: ConcreteModel,
                                   interpret: Interpretation)
    ensures DefaultRefineOp(original, relaxed, spurious).value.value
         == Operators.DefaultRefineGenerate(original, relaxed, spurious, interpret)
  {
  }

  /**
   * `DefaultRestrictOp::apply(σ, G)`: OK with a copy of σ; the witness says
   * "safe", not "exact".
   */
  function DefaultRestrictOp(s: SemanticState, additional: Formula): (r: OpResult<SemanticState>)
    ensures r.WellFormed() && r.status == OK && r.HasValue()
    ensures r.value == Some(s)
    ensures r.witnessData == Witness(RestrictExplanation, false)
  {
    OpResult(OK, Some(SemanticStates.Clone(s)), Witness(RestrictExplanation, false))
  }

  /**
   * The identity restriction is exact, and so also safe, under every
   * semantics and every γ, whatever the extra formula.
   */
  lemma DefaultRestrictOpIsExact(interpret: Interpretation, gamma: Concretization,
                                 s: SemanticState, additional: Formula)
    ensures ExactRestriction(interpret, gamma, s, DefaultRestrictOp(s, additional).value.value)
    ensures SafeRestriction(interpret, gamma, s, DefaultRestrictOp(s, additional).value.value)
  {
    var t := DefaultRestrictOp(s, additional).value.value;
    assert t.formula == s.formula && t.element == s.element;
  }

  /** `DefaultRelaxOp::apply(F)`: OK with a copy of F. */
  function DefaultRelaxOp(f: Formula): (r: OpResult<Formula>)
    ensures r.WellFormed() && r.status == OK && r.HasValue()
    ensures IsEquivalent(r.value.value, f)
    ensures r.witnessData.explanation == RelaxExplanation
  {
    OpResult(OK, Some(Formulas.Clone(f)), Witness(RelaxExplanation, false))
  }

  /** The identity relaxation meets Axiom A: [[F]] ⊆ [[F^α]]. */
  lemma DefaultRelaxOpIsRelaxation(interpret: Interpretation, f: Formula)
    ensures IsRelaxationOf(interpret, f, DefaultRelaxOp(f).value.value)
  {
    assert DefaultRelaxOp(f).value.value == f;
  }

  /** `DefaultInfeasibleOp::apply(σ)` of the new layer: UNKNOWN for every state. */
  function DefaultInfeasibleOp(s: SemanticState): (r: VoidResult)
    ensures r.status == UNKNOWN && !r.HasValue() && r.witnessData.explanation == ""
  {
    VoidUnknown()
  }

  /** Never answering UNSAT, its refutation contract holds vacuously. */
  lemma DefaultInfeasibleOpSound(interpret: Interpretation, gamma: Concretization)
    ensures RefutationSound(DefaultInfeasibleOp, interpret, gamma)
  {
  }

  /** `DefaultShadowOp::apply(σ, elim_vars)`: UNKNOWN, no value, so no over-approximation is claimed. */
  function DefaultShadowOp(s: SemanticState, elimVars: seq<string>): (r: OpResult<SemanticState>)
    ensures r.WellFormed() && r.status == UNKNOWN && !r.HasValue()
  {
    Unknown()
  }

  /**
   * `LpInfeasibleOp::apply(σ)`: one call to the LP backend's `refute`; its
   * UNSAT becomes UNSAT with the Farkas certificate as explanation, every
   * other status UNKNOWN.
   */
  function LpInfeasibleOp(refute: SemanticState -> VoidResult, s: SemanticState): (r: VoidResult)
    ensures r.status == UNSAT <==> refute(s).status == UNSAT
    ensures r.status == UNSAT ==> r.witnessData.explanation == refute(s).witnessData.explanation
    ensures r.status != UNSAT ==> r.status == UNKNOWN && r.witnessData == DefaultWitness
  {
    var b := refute(s);
    if b.status == UNSAT then VoidUnsat(Witness(b.witnessData.explanation, false)) else VoidUnknown()
  }

  /** A refutation-sound LP backend gives a refutation-sound operator. */
  lemma LpInfeasibleSound(refute: SemanticState -> VoidResult, interpret: Interpretation,
                          gamma: Concretization)
    requires RefutationSound(refute, interpret, gamma)
    ensures RefutationSound(s => LpInfeasibleOp(refute, s), interpret, gamma)
  {
    forall s | LpInfeasibleOp(refute, s).status == UNSAT
      ensures StateIsEmpty(interpret, gamma, s)
    {
      assert refute(s).status == UNSAT;
    }
  }

  /** The LP and CAD wrappers map backend answers in the same way. */
  lemma LpAndCadWrappersAgree(refute: SemanticState -> VoidResult, s: SemanticState)
    ensures LpInfeasibleOp(refute, s) == Operators.CadInfeasibleOp(refute, s)
  {
  }
}
