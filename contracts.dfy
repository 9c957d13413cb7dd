/**
 * The semantic contracts the operator interfaces document, as predicates
 * on operator functions: refutation soundness (Axiom I,
 * include/semcal/operators/infeasible.h), covering (Axiom D,
 * include/semcal/operators/decompose.h), safe and exact restriction
 * (Axiom R, include/semcal/operators/restrict.h) and relaxation (Axiom A,
 * include/semcal/operators/relax.h).  Nothing in the repository checks
 * them; the lemmas beside each operator prove which ones it meets.
 */
module Contracts {
  import opened OpResults
  import opened Formulas
  import opened Semantics
  import opened Concretizations
  import opened SemanticStates

  /** Axiom I: an UNSAT answer is only given on a state with no models. */
  ghost predicate RefutationSound(infeasible: SemanticState -> VoidResult,
                                  interpret: Interpretation, gamma: Concretization)
  {
    forall s :: infeasible(s).status == UNSAT ==> StateIsEmpty(interpret, gamma, s)
  }

  /** Conc(σ) ⊆ ∪ᵢ Conc(σᵢ). */
  ghost predicate Covers(interpret: Interpretation, gamma: Concretization,
                         s: SemanticState, children: seq<SemanticState>)
  {
    forall m | m in Concretize(interpret, gamma, s) ::
      exists i :: 0 <= i < |children| && m in Concretize(interpret, gamma, children[i])
  }

  /** Axiom D: every OK decomposition covers its parent. */
  ghost predicate DecomposeCovering(decompose: SemanticState -> OpResult<seq<SemanticState>>,
                                    interpret: Interpretation, gamma: Concretization)
  {
    forall s :: decompose(s).status == OK && decompose(s).value.Some? ==>
      Covers(interpret, gamma, s, decompose(s).value.value)
  }

  /** Safe restriction: [[F]] ∩ γ(a) ⊆ [[F]] ∩ γ(a'). */
  ghost predicate SafeRestriction(interpret: Interpretation, gamma: Concretization,
                                  s: SemanticState, t: SemanticState)
  {
    t.formula == s.formula && Concretize(interpret, gamma, s) <= Concretize(interpret, gamma, t)
  }

  /** Exact restriction: [[F]] ∩ γ(a) = [[F]] ∩ γ(a'). */
  ghost predicate ExactRestriction(interpret: Interpretation, gamma: Concretization,
                                   s: SemanticState, t: SemanticState)
  {
    t.formula == s.formula && Concretize(interpret, gamma, s) == Concretize(interpret, gamma, t)
  }

  /** Axiom A: [[F]] ⊆ [[F^α]]. */
  ghost predicate IsRelaxationOf(interpret: Interpretation, f: Formula, relaxed: Formula)
  {
    interpret(f) <= interpret(relaxed)
  }

  /** Exact restriction is the stronger guarantee. */
  lemma ExactIsSafe(interpret: Interpretation, gamma: Concretization, s: SemanticState, t: SemanticState)
    requires ExactRestriction(interpret, gamma, s, t)
    ensures SafeRestriction(interpret, gamma, s, t)
  {
  }

  /** A decomposition that keeps a copy of the parent covers it. */
  lemma KeepingParentCovers(interpret: Interpretation, gamma: Concretization,
                            s: SemanticState, children: seq<SemanticState>, k: nat)
    requires k < |children| && Concretize(interpret, gamma, s) <= Concretize(interpret, gamma, children[k])
    ensures Covers(interpret, gamma, s, children)
  {
    forall m | m in Concretize(interpret, gamma, s)
      ensures exists i :: 0 <= i < |children| && m in Concretize(interpret, gamma, children[i])
    {
      assert m in Concretize(interpret, gamma, children[k]);
    }
  }
}
