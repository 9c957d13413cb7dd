/**
 * The older semantic state σ = (F, a) of src/state/semantic_state.cpp,
 * used by the orchestration strategies.
 */
module PairStates {
  import opened Formulas
  import opened Domain
  import opened Semantics
  import opened Concretizations

  datatype PairState = PairState(formula: Formula, element: Element)

  /** `concretize(semantics, γ)`: [[F]] ∩ γ(a). */
  function Concretize(interpret: Interpretation, gamma: Concretization, s: PairState): (r: ModelSet)
    ensures r <= interpret(s.formula) && r <= gamma(s.element)
    ensures forall m | m in interpret(s.formula) && m in gamma(s.element) :: m in r
  {
    Intersect(interpret(s.formula), gamma(s.element))
  }

  /** `isEmpty(semantics, γ)`. */
  predicate StateIsEmpty(interpret: Interpretation, gamma: Concretization, s: PairState)
  {
    IsEmpty(Concretize(interpret, gamma, s))
  }

  /** `toString()`: "(" F ", " a ")". */
  function ToString(s: PairState): (r: string)
  {
    "(" + Formulas.ToString(s.formula) + ", " + ElementToString(s.element) + ")"
  }

  /** `clone()`: copies of both components. */
  function Clone(s: PairState): (c: PairState)
    ensures c == s
    ensures ToString(c) == ToString(s)
    ensures IsEquivalent(c.formula, s.formula) && c.element == s.element
  {
    PairState(Formulas.Clone(s.formula), s.element)
  }

  /** σ is empty exactly when [[F]] and γ(a) share no model. */
  lemma StateIsEmptyIff(interpret: Interpretation, gamma: Concretization, s: PairState)
    ensures StateIsEmpty(interpret, gamma, s) <==> interpret(s.formula) * gamma(s.element) == {}
  {
  }

  /** A comma in the formula text can move the boundary between F and a. */
  lemma PrintedFormNotInjective()
    ensures ToString(PairState(ConcreteFormula("p, q"), Opaque("r")))
         == ToString(PairState(ConcreteFormula("p"), Opaque("q, r")))
  {
  }
}
