/**
 * The semantic state σ = (F, a, μ) of src/semcal/state/semantic_state.cpp.
 *
 * A state is a value: `clone()` deep-copies all three components, so a
 * copy and its original can never be told apart.  Conc(σ) is documented as
 * the models of [[F]] ∩ γ(a) that extend μ, but the filter by μ is not
 * implemented; the model follows the code.
 */
module SemanticStates {
  import opened OpResults
  import opened Formulas
  import opened Domain
  import opened Valuations
  import opened Semantics
  import opened Concretizations

  datatype SemanticState = SemanticState(formula: Formula, element: Element, mu: Valuation)

  /** The constructor: a null partial model becomes an empty one. */
  function MakeState(f: Formula, a: Element, mu: Option<Valuation>): (s: SemanticState)
    ensures s.formula == f && s.element == a
    ensures mu.None? ==> s.mu == Empty
    ensures mu.Some? ==> s.mu == mu.value
  {
    SemanticState(f, a, if mu.Some? then mu.value else Empty)
  }

  /** `concretize(semantics, γ)`: the models of F that a stands for. */
  function Concretize(interpret: Interpretation, gamma: Concretization, s: SemanticState): (r: ModelSet)
    ensures r <= interpret(s.formula) && r <= gamma(s.element)
    ensures forall m | m in interpret(s.formula) && m in gamma(s.element) :: m in r
  {
    Intersect(interpret(s.formula), gamma(s.element))
  }

  /** `isEmpty(semantics, γ)`. */
  predicate StateIsEmpty(interpret: Interpretation, gamma: Concretization, s: SemanticState)
  {
    IsEmpty(Concretize(interpret, gamma, s))
  }

  /** `toString()`: "(" F ", " a ", " μ ")". */
  function ToString(s: SemanticState): (r: string)
  {
    "(" + Formulas.ToString(s.formula) + ", " + ElementToString(s.element) + ", " + Render(s.mu) + ")"
  }

  /** `clone()`: independent copies of F, a and μ. */
  function Clone(s: SemanticState): (c: SemanticState)
    ensures c == s
    ensures ToString(c) == ToString(s)
    ensures c.mu.assignments == s.mu.assignments
  {
    SemanticState(Formulas.Clone(s.formula), s.element, s.mu)
  }

  /** The partial model plays no part in the concretisation. */
  lemma ConcretizeIgnoresMu(interpret: Interpretation, gamma: Concretization, s: SemanticState, mu: Valuation)
    ensures Concretize(interpret, gamma, s.(mu := mu)) == Concretize(interpret, gamma, s)
  {
  }

  /** σ is empty exactly when no model is both a model of F and in γ(a). */
  lemma StateIsEmptyIff(interpret: Interpretation, gamma: Concretization, s: SemanticState)
    ensures StateIsEmpty(interpret, gamma, s) <==> interpret(s.formula) * gamma(s.element) == {}
  {
  }

  /** Under the default semantics every state is empty. */
  lemma DefaultsMakeEveryStateEmpty(gamma: Concretization, s: SemanticState)
    ensures StateIsEmpty(DefaultInterpret, gamma, s)
  {
  }

  /**
   * The printed form does not determine the state: a comma inside the
   * formula text can move the boundary between F and a.
   */
  lemma PrintedFormNotInjective()
    ensures ToString(SemanticState(ConcreteFormula("p, q"), Opaque("r"), Empty))
         == ToString(SemanticState(ConcreteFormula("p"), Opaque("q, r"), Empty))
  {
  }
}
