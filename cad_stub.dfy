/**
 * The stub CAD backend (src/semcal/backends/cad_stub.cpp): it never
 * refutes and never splits a cell.
 */
module CadStub {
  import opened OpResults
  import opened Semantics
  import opened Concretizations
  import opened SemanticStates
  import opened Contracts
  import Operators

  /** `CadStubBackend::refute(σ)`: UNKNOWN. */
  function CadStubRefute(s: SemanticState): (r: VoidResult)
    ensures r.status == UNKNOWN && !r.HasValue()
  {
    VoidUnknown()
  }

  /** `CadStubBackend::decompose(σ)`: OK with the one-element list [σ.clone()]. */
  function CadStubDecompose(s: SemanticState): (r: OpResult<seq<SemanticState>>)
    ensures r.WellFormed() && r.status == OK && r.HasValue()
    ensures r.value == Some([s])
  {
    Ok([SemanticStates.Clone(s)])
  }

  /** Behind the CAD Infeasible wrapper the stub answers UNKNOWN for every state. */
  lemma StubBehindWrapperIsUnknown(s: SemanticState)
    ensures Operators.CadInfeasibleOp(CadStubRefute, s).status == UNKNOWN
  {
  }

  /** The stub's decomposition is the default one, so it covers every state. */
  lemma StubDecomposeCovers(interpret: Interpretation, gamma: Concretization)
    ensures DecomposeCovering(CadStubDecompose, interpret, gamma)
  {
    forall s | CadStubDecompose(s).status == OK && CadStubDecompose(s).value.Some?
      ensures Covers(interpret, gamma, s, CadStubDecompose(s).value.value)
    {
      assert CadStubDecompose(s) == Operators.DefaultDecomposeOp(s);
      KeepingParentCovers(interpret, gamma, s, CadStubDecompose(s).value.value, 0);
    }
  }
}
