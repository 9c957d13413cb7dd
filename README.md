# SemCal in Dafny

This project models the core of SemCal. SemCal is a C++ framework that builds
constraint solvers out of *semantic operators* (Refine, Relax, Restrict,
Decompose, Project, Lift, Infeasible, Shadow) acting on semantic states. A
small *kernel* checks the evidence those operators produce.

Almost every operator and backend in the repository is a stub or an interface,
so the logic worth modelling is the glue between them:

- **Result types.** Tagged operator results: `OpResult`, status and witness,
  with its `void` specialisation. The success/failure variant `Result<T, E>`.
- **Formulas, models, semantics and domains.** `ConcreteFormula` with
  `FormulaFactory`; `ConcreteModel` and `PartialModel`, updated in place;
  model sets with intersection and union; the top element and the precision
  order; concretisation γ and the Galois-connection check.
- **States.** The triple state σ = (F, a, μ) and the older pair state (F, a),
  each with concretisation, emptiness, printing and cloning.
- **Operators.** The default operators of both operator layers; the CAD- and
  LP-backed Infeasible wrappers; the CAD stub backend; the capability tables
  and witness texts of the CAD, LP and ICP backends.
- **Kernel.** Evidence validity, step printing, step checking and trace
  replay, and the four semantic checks.
- **Search.** The FIFO search engine (`DefaultSearchEngine`) and `SemSolver`,
  which wires a strategy to it.
- **Strategies.** The three worklist strategies (depth-first, breadth-first,
  best-first). They exist twice: in the legacy layer over the triple state with
  tagged operator results, and in the orchestration layer over the pair state
  with a boolean infeasibility check.

The module-level contracts the interfaces document are predicates in module
`Contracts`:

- Axiom I: an UNSAT answer means the state has no models.
- Axiom D: a decomposition covers its parent.
- Axiom R: restriction is safe or exact.
- Axiom A: a relaxation contains the original formula's models.

The lemmas prove which default operators meet these axioms.

The central result sits on the strategies, whose worklists are modelled once,
generically:

- `DepthFirst.DepthFirstSearch` is proved equal to the reference definition
  `DepthFirst.Leaves`. That definition emits the last child's subtree first,
  as the stack does.
- `Frontier.BreadthFirstSearch` is proved to return a prefix of the FIFO drain
  `Frontier.Drain`, and all of it when the width bound is not reached.
- `Frontier.BestFirstSearch` is proved equal to the minimum-heuristic drain
  `Frontier.BestDrain`.
- The two drains emit the same multiset of states.
- When Infeasible is refutation-sound and Decompose covers and never fails, no
  model of the initial state is lost. This holds in both strategy layers.

Design decisions that shape the model:

- C++ objects that are only copied (formulas, elements, states, results) are
  datatypes.
- Objects that are updated in place are classes: models, partial models, the
  search engine, the strategies and the solver.
- Operators and backends the repository leaves abstract are function-typed
  parameters (oracles).
- A model set (`std::set<std::shared_ptr<Model>>`) is a `set` of `ConcreteModel`
  references. Membership is by identity.
- The nested loops that compare model sets with `Model::equals` are one method,
  `Semantics.CheckContainedUpToEquals`.
- An `unordered_map<string, string>` is a `map` plus an iteration order. C++
  leaves that order unspecified; here it is insertion order.

Where the interface comments and the code disagree, the model follows the code:

- `TopElement::isLessPreciseThan` is `!equals`, so Top ⊑ Top is false. The
  interface documents ⊑ as "less precise than or equal to".
- `SemanticState::concretize` on the triple state does not filter by μ. Its
  comment says it should.
- The kernel's checks accept any non-empty evidence, and `checkModelValidity`
  accepts every model.
- The files under src/operators/ that return tagged results (Decompose,
  Project, Lift, Infeasible, CadInfeasible) take the triple state their
  implementations are written against.

## Model

| member | source | states |
|---|---|---|
| OpResults.Ok | include/util/op_result.h:57-59 | status OK, the given value present, default witness, well-formed (value present iff OK/PARTIAL) |
| OpResults.Partial | include/util/op_result.h:69-71 | status PARTIAL with the given value and default witness |
| OpResults.Unsat | include/util/op_result.h:61-63 | status UNSAT, no value, the caller's witness kept |
| OpResults.Unknown | include/util/op_result.h:65-67 | status UNKNOWN, no value, default witness |
| OpResults.Error | include/util/op_result.h:73-75 | status ERROR, no value, default witness |
| OpResults.VoidOk | include/util/op_result.h:28-30 | void `ok()`: OK, has_value, default witness |
| OpResults.VoidUnsat | include/util/op_result.h:32-34 | void `unsat(w)`: UNSAT, no value, witness w |
| OpResults.VoidUnknown | include/util/op_result.h:36-38 | void `unknown()`: UNKNOWN, no value, default witness |
| OpResults.VoidError | include/util/op_result.h:40-42 | void `error()`: ERROR, no value, default witness |
| OpResults.HasValueAgreesWithVoid | include/util/op_result.h:44-47 | on factory-built results, value presence coincides with the void status test (OK or PARTIAL) |
| OpResults.OpResult.HasValue | include/util/op_result.h:77-79 | definition: a value is present; `WellFormed` ties it to status OK or PARTIAL, and every factory above ensures it |
| Results.Result.GetValue | include/util/result.h:75-84 | the value exactly on success; `bad_variant_access` on failure |
| Results.Result.GetError | include/util/result.h:89-98 | the error exactly on failure; `bad_variant_access` on success |
| Results.Result.GetValueOr | include/util/result.h:103-108 | the held value on success, the default on failure |
| Results.Result.IsSuccess | include/util/result.h:61-63 | definition: the value alternative is held; `ExactlyOneAlternative` proves it excludes `IsFailure` |
| Results.Result.IsFailure | include/util/result.h:68-70 | definition: the error alternative is held; the complement of `IsSuccess` by `ExactlyOneAlternative` |
| Results.MakeSuccess | include/util/result.h:25-38 | success: isSuccess, not isFailure, getValue reads back v, getError throws |
| Results.MakeFailure | include/util/result.h:43-56 | failure: isFailure, getError reads back e, getValue throws |
| Results.ExactlyOneAlternative | include/util/result.h:61-70 | exactly one of isSuccess and isFailure holds |
| Results.GettersDetermineResult | include/util/result.h:25-98 | the getters invert the factories: a result is rebuilt from what its getter returns |
| Valuations.Valuation.Get | src/semcal/core/partial_model.cpp:16-22 | the bound value, or "" for an unbound variable |
| Valuations.Valuation.Set | src/semcal/core/partial_model.cpp:12-14 | x is bound to v, every other variable unchanged, iteration-order invariant kept |
| Valuations.EmptyIsValid | src/semcal/core/partial_model.cpp:8-10 | the empty map satisfies the invariant and is empty |
| Valuations.IsEmptyIffNoOrder | src/semcal/core/partial_model.cpp:50-52 | the map is empty iff nothing is iterated |
| Valuations.GetAfterSet | src/core/model.cpp:11-21 | after binding x, reading y sees the new value only at x |
| Valuations.SetOverwrites | src/core/model.cpp:11-13 | binding x twice keeps only the later value |
| Valuations.RenderEmptyIff | src/semcal/core/partial_model.cpp:54-68 | the printed form is "{}" iff there is nothing to print |
| Valuations.RenderSetFresh | src/semcal/core/partial_model.cpp:54-68 | binding a fresh variable appends ", x = v" before the closing brace |
| Valuations.Print | src/core/model.cpp:34-47 | the `first`-flag loop prints exactly "{" + entries joined by ", " + "}" |
| Valuations.AssignedVariables | src/semcal/core/partial_model.cpp:41-48 | the collecting loop lists every bound variable exactly once and nothing else |
| Models.ConcreteModel.constructor | src/core/model.cpp:7-9 | a model with no assignments |
| Models.ConcreteModel.FromAssignments | src/core/model.cpp:7-9 | a model holding the given assignments |
| Models.ConcreteModel.SetAssignment | src/core/model.cpp:11-13 | x bound to the value in place, other variables unchanged |
| Models.ConcreteModel.ToString | src/core/model.cpp:34-47 | the printed form of the assignments |
| Models.ConcreteModel.Clone | src/core/model.cpp:49-51 | a fresh model with the same assignments, `equals` to the original |
| Models.ConcreteModel.GetAssignment | src/core/model.cpp:15-21 | definition: the bound value or ""; `Valuations.Valuation.Get` states the two cases |
| Models.ConcreteModel.HasAssignment | src/core/model.cpp:23-25 | definition: the variable is bound; `SetAssignment` and `EqualsIffIndistinguishable` state how it behaves |
| Models.ConcreteModel.Satisfies | src/core/model.cpp:27-32 | definition: the placeholder that accepts every constraint; stated by `SatisfiesEveryConstraint` |
| Models.ConcreteModel.Equals | src/core/model.cpp:53-59 | definition: identical assignment maps; `EqualsIsEquivalence` and `EqualsIffIndistinguishable` state its meaning |
| Models.SatisfiesEveryConstraint | src/core/model.cpp:27-32 | the placeholder `satisfies` accepts every constraint |
| Models.EqualsIsEquivalence | src/core/model.cpp:53-59 | `equals` is reflexive, symmetric and transitive |
| Models.EqualsIffIndistinguishable | src/core/model.cpp:15-25 | two models are `equals` iff no has/get query tells them apart |
| PartialModels.PartialModel.constructor | src/semcal/core/partial_model.cpp:8-10 | the empty partial model |
| PartialModels.PartialModel.FromAssignments | src/semcal/core/partial_model.cpp:8-10 | a partial model holding the given assignments |
| PartialModels.PartialModel.SetAssignment | src/semcal/core/partial_model.cpp:12-14 | x bound in place, has/get of every other variable unchanged |
| PartialModels.PartialModel.GetAssignedVariables | src/semcal/core/partial_model.cpp:41-48 | each bound variable exactly once, in iteration order |
| PartialModels.PartialModel.ToString | src/semcal/core/partial_model.cpp:54-68 | the printed entries, and "{}" iff the partial model is empty |
| PartialModels.PartialModel.Clone | src/semcal/core/partial_model.cpp:70-72 | a fresh partial model with the same assignments |
| PartialModels.PartialModel.GetAssignment | src/semcal/core/partial_model.cpp:16-22 | definition: the bound value or ""; `Valuations.Valuation.Get` states the two cases |
| PartialModels.PartialModel.HasAssignment | src/semcal/core/partial_model.cpp:24-26 | definition: the variable is bound; `SetAssignment` states how it changes |
| PartialModels.PartialModel.IsExtendedBy | src/semcal/core/partial_model.cpp:28-39 | definition: the placeholder that accepts every model; stated by `ExtendedByEveryModel` |
| PartialModels.PartialModel.IsEmpty | src/semcal/core/partial_model.cpp:50-52 | definition: no variable bound; `PrintedEmptyIff` ties it to the printed "{}" |
| PartialModels.ExtendedByEveryModel | src/semcal/core/partial_model.cpp:28-39 | the placeholder `isExtendedBy` holds for every model |
| PartialModels.PrintedEmptyIff | src/semcal/core/partial_model.cpp:50-67 | the printed form is "{}" iff `isEmpty()` |
| Formulas.FromCString | src/core/formula.cpp:11-13 | a null `const char*` yields the empty expression, otherwise the text |
| Formulas.ToString | src/core/formula.cpp:15-17 | definition: the stored expression; the factory rows below state the texts built from it |
| Formulas.Clone | src/core/formula.cpp:19-21 | the copy is equal to the original formula |
| Formulas.IsEquivalent | src/core/formula.cpp:23-31 | definition: identical expressions; `IsEquivalentIsEquality` proves it is an equivalence and coincides with equality |
| Formulas.Negation | src/core/formula.cpp:63-67 | definition: "(not F)"; its inverse is `StripNegation`, and `NegationRoundTrip`/`NegationInjective` state the round trip |
| Formulas.Implication | src/core/formula.cpp:69-74 | definition: "(=> P C)"; `ImplicationTextAmbiguous` shows the text does not determine P and C |
| Formulas.CloneIsEquivalent | src/core/formula.cpp:15-31 | a clone prints the same and is equivalent both ways |
| Formulas.IsEquivalentIsEquality | src/core/formula.cpp:23-31 | `isEquivalent` is an equivalence relation and coincides with equality |
| Formulas.StreamApplication | src/core/formula.cpp:40-46 | the stream loop builds "(head f1 ... fn)" |
| Formulas.CreateConjunction | src/core/formula.cpp:35-47 | "true" for no operands, otherwise "(and f1 ... fn)" |
| Formulas.CreateDisjunction | src/core/formula.cpp:49-61 | "false" for no operands, otherwise "(or f1 ... fn)" |
| Formulas.SingletonIsWrapped | src/core/formula.cpp:35-61 | a single operand is still wrapped: "(and f)" differs from f |
| Formulas.PairApplication | src/core/formula.cpp:40-46 | two operands print as "(head a b)" |
| Formulas.ApplicationSnoc | src/core/formula.cpp:42-45 | appending an operand adds " g" before the closing parenthesis |
| Formulas.StripNegation | src/core/formula.cpp:63-67 | whatever it recognises is the negation of the returned formula |
| Formulas.NegationRoundTrip | src/core/formula.cpp:63-67 | stripping the negation of f gives back f |
| Formulas.NegationInjective | src/core/formula.cpp:63-67 | distinct formulas have distinct negations |
| Formulas.ImplicationTextAmbiguous | src/core/formula.cpp:69-74 | the printed implication does not determine its premise and conclusion |
| Semantics.Intersect | src/semcal/core/semantics.cpp:8-16 | exactly the models in both sets |
| Semantics.UnionSet | src/semcal/core/semantics.cpp:18-26 | exactly the models in either set |
| Semantics.IsEmpty | src/semcal/core/semantics.cpp:28-30 | definition: the set has no elements; stated by `IsEmptyIffNoMember` |
| Semantics.IsEmptyIffNoMember | src/semcal/core/semantics.cpp:28-30 | `isEmpty` iff no model is a member |
| Semantics.IdentityNotEquality | src/semcal/core/semantics.cpp:8-26 | two distinct but `equals` models do not meet in an intersection and both survive a union |
| Semantics.Absorption | src/semcal/core/semantics.cpp:8-26 | intersection and union satisfy absorption |
| Semantics.DefaultInterpret | src/semcal/core/semantics.cpp:32-37 | the default semantics gives every formula no models |
| Semantics.DefaultSatisfies | src/semcal/core/semantics.cpp:39-42 | definition: asks the model's `satisfies` on the printed formula; stated by `DefaultSatisfiesAll` |
| Semantics.DefaultAreEquivalent | src/semcal/core/semantics.cpp:44-47 | definition: asks the first formula's `isEquivalent`; stated by `DefaultEquivalenceIsEquality` |
| Semantics.DefaultSatisfiesAll | src/semcal/core/semantics.cpp:39-42 | default `satisfies` holds for every model and formula |
| Semantics.DefaultEquivalenceIsEquality | src/semcal/core/semantics.cpp:44-47 | default `areEquivalent` holds exactly between equal formulas |
| Semantics.SubsetIsContained | src/domain/concretization.cpp:11-28 | inclusion by identity implies inclusion up to `equals` |
| Semantics.EmptyIsContained | src/domain/concretization.cpp:11-28 | the empty set is contained in every set |
| Semantics.CheckContainedUpToEquals | src/domain/concretization.cpp:11-28 | the nested search loop answers true iff every model of a is `equals` to some model of b |
| Domain.TopClone | src/domain/top_element.cpp:19-21 | a clone of Top `equals` Top |
| Domain.TopEquals | src/domain/top_element.cpp:11-13 | definition: the other element is Top; `TopClone` ensures the clone passes it |
| Domain.TopIsLessPreciseThan | src/domain/top_element.cpp:6-9 | definition: not `equals`; `TopOrder` states the consequence that Top ⊑ Top is false |
| Domain.ElementToString | src/domain/top_element.cpp:15-17 | definition: "⊤" for Top, the printed form of any other element; used by `TopCloneAgrees` |
| Domain.IsLessPreciseThan | src/domain/top_element.cpp:6-9 | definition: dispatch on the receiver, Top's rule or the element's own order; stated by `TopOrder` |
| Domain.IsMorePreciseThan | src/domain/abstract_domain.cpp:6-8 | definition: the converse call; stated by `MorePreciseIsConverse` and `MorePreciseThanTop` |
| Domain.TopOrder | src/domain/top_element.cpp:6-13 | Top is less precise than exactly the elements other than Top, not than itself |
| Domain.MorePreciseThanTop | src/domain/abstract_domain.cpp:6-8 | no Top is more precise than Top; every other element is |
| Domain.MorePreciseIsConverse | src/domain/abstract_domain.cpp:6-8 | `isMorePreciseThan` is the converse of `isLessPreciseThan` |
| Domain.TopCloneAgrees | src/domain/top_element.cpp:15-21 | a clone of Top prints and orders like Top |
| Concretizations.IsSubset | src/domain/concretization.cpp:11-28 | true iff γ(a) is contained in γ(b) up to `equals`; always true when γ(a) is empty |
| Concretizations.ConcretizationIsEmpty | src/domain/concretization.cpp:6-9 | definition: γ(a) is empty; `DefaultConcretizationIsDegenerate` shows every element passes under the default γ |
| Concretizations.DefaultConcretize | src/domain/concretization.cpp:30-35 | the default γ is empty for every element |
| Concretizations.DefaultConcretizationIsDegenerate | src/domain/concretization.cpp:6-35 | under the default γ every element is empty and a subset of every other |
| Galois.SatisfiesGaloisProperty | src/domain/galois.cpp:13-40 | true iff "S ⊆ γ(a)" (up to `equals`) agrees with "α(S) ⊑ a" |
| Galois.EmptySetReducesToOrder | src/domain/galois.cpp:13-40 | for S = ∅ the check reduces to α(∅) ⊑ a |
| Galois.DefaultAbstract | src/domain/galois.cpp:42-47 | the default abstraction returns null |
| Galois.TopAbstractionFailsOnEmptySet | src/domain/galois.cpp:13-40 | an abstraction mapping ∅ to Top fails the check at (∅, Top) because Top ⊑ Top is false |
| SemanticStates.MakeState | src/semcal/state/semantic_state.cpp:7-14 | F and a stored, a null μ replaced by the empty partial model |
| SemanticStates.ToString | src/semcal/state/semantic_state.cpp:36-42 | definition: "(F, a, μ)"; `PrintedFormNotInjective` shows it does not determine the state |
| SemanticStates.StateIsEmpty | src/semcal/state/semantic_state.cpp:29-34 | definition: Conc(σ) is empty; stated by `StateIsEmptyIff` |
| SemanticStates.Concretize | src/semcal/state/semantic_state.cpp:16-27 | exactly the models of [[F]] ∩ γ(a), no filtering by μ |
| SemanticStates.Clone | src/semcal/state/semantic_state.cpp:44-50 | the clone is the state itself: same F, a and μ, hence the same printed form |
| SemanticStates.ConcretizeIgnoresMu | src/semcal/state/semantic_state.cpp:16-27 | replacing μ does not change Conc(σ) |
| SemanticStates.StateIsEmptyIff | src/semcal/state/semantic_state.cpp:29-34 | σ is empty iff [[F]] and γ(a) share no model |
| SemanticStates.DefaultsMakeEveryStateEmpty | src/semcal/state/semantic_state.cpp:29-34 | under the default semantics every state is empty |
| SemanticStates.PrintedFormNotInjective | src/semcal/state/semantic_state.cpp:36-42 | two different states can print alike |
| PairStates.Concretize | src/state/semantic_state.cpp:14-22 | exactly the models of [[F]] ∩ γ(a) |
| PairStates.ToString | src/state/semantic_state.cpp:31-35 | definition: "(F, a)"; `PrintedFormNotInjective` shows it does not determine the state |
| PairStates.StateIsEmpty | src/state/semantic_state.cpp:24-29 | definition: Conc(σ) is empty; stated by `StateIsEmptyIff` |
| PairStates.Clone | src/state/semantic_state.cpp:37-42 | the clone is the state itself: an equivalent formula, the same element, the same printed form |
| PairStates.StateIsEmptyIff | src/state/semantic_state.cpp:24-29 | σ is empty iff [[F]] and γ(a) share no model |
| PairStates.PrintedFormNotInjective | src/state/semantic_state.cpp:31-35 | two different pair states can print alike |
| Contracts.ExactIsSafe | include/semcal/operators/restrict.h:25-34 | exact restriction implies safe restriction |
| Contracts.KeepingParentCovers | include/semcal/operators/decompose.h:13-19 | a decomposition that keeps a copy of the parent covers it |
| Operators.RefineApply | src/operators/refine.cpp:9-17 | prints as "(and Fα R)" |
| Operators.DefaultRefineGenerate | src/operators/refine.cpp:19-35 | the constraint is "(not M)" over the printed spurious model; stripping it gives back M's text |
| Operators.GenerateIgnoresFormulas | src/operators/refine.cpp:19-35 | the generated constraint depends on the spurious model alone |
| Operators.GeneratedConstraintNotExcluding | src/operators/refine.cpp:19-35 | the spurious model still `satisfies` the constraint meant to exclude it |
| Operators.IsRelaxation | src/operators/relax.cpp:7-28 | true iff [[F]] ⊆ [[F']] up to `equals`; true on any Axiom A relaxation |
| Operators.DefaultRelaxApply | src/operators/relax.cpp:30-35 | the result is equivalent to F |
| Operators.DefaultRelaxIsRelaxation | src/operators/relax.cpp:30-35 | the identity relaxation meets Axiom A under every semantics |
| Operators.RestrictApplyToState | src/operators/restrict.cpp:8-17 | keeps F; the element becomes `restrict(G, a)` for the extra formula G |
| Operators.DefaultRestrictApply | src/operators/restrict.cpp:19-26 | definition: a copy of a whatever the formula; stated by `DefaultRestrictKeepsState` |
| Operators.DefaultRestrictKeepsState | src/operators/restrict.cpp:19-26 | the default restriction leaves the state and its printed form unchanged |
| Operators.RestrictApplyToStateExact | src/operators/restrict.cpp:8-17 | a sound element restriction for G with F ⇒ G keeps exactly the state's models |
| Operators.RestrictWithUnrelatedFormulaLosesModels | src/operators/restrict.cpp:8-17 | without F ⇒ G, restricting with G can drop a model of the state |
| Operators.DefaultDecomposeOp | src/operators/decompose.cpp:6-14 | OK with the one-element list [σ] |
| Operators.DefaultDecomposeCovers | src/operators/decompose.cpp:6-14 | the one-clone decomposition meets Axiom D |
| Operators.DefaultProjectOp | src/operators/project.cpp:6-13 | OK with σ itself |
| Operators.DefaultLiftOp | src/operators/lift.cpp:6-13 | OK with the low state itself |
| Operators.ProjectLiftIgnoreExtraInputs | src/operators/project.cpp:6-13 | projection ignores the variable list, lifting ignores the high context |
| Operators.DefaultInfeasibleOp | src/operators/infeasible.cpp:9-14 | UNKNOWN with no value for every state |
| Operators.DefaultInfeasibleSound | src/operators/infeasible.cpp:9-14 | never answering UNSAT, it meets Axiom I |
| Operators.CadInfeasibleOp | src/operators/infeasible_cad.cpp:6-15 | UNSAT iff the backend refutes, with its reason; otherwise UNKNOWN |
| Operators.CadInfeasibleSoundIff | src/operators/infeasible_cad.cpp:6-15 | the wrapper meets Axiom I iff the backend does |
| SemcalOperators.DefaultRefineOp | src/semcal/operators/refine.cpp:9-35 | OK with "(not M)" over the printed spurious model and the fixed explanation |
| SemcalOperators.RefineOpAgreesWithGenerate | src/semcal/operators/refine.cpp:9-35 | builds the same constraint as the older `DefaultRefine::generate` |
| SemcalOperators.DefaultRestrictOp | src/semcal/operators/restrict.cpp:8-25 | OK with σ itself; witness says "no restriction applied", not exact |
| SemcalOperators.DefaultRestrictOpIsExact | src/semcal/operators/restrict.cpp:8-25 | the result is an exact, hence safe, restriction under every semantics |
| SemcalOperators.DefaultRelaxOp | src/semcal/operators/relax.cpp:7-21 | OK with a formula equivalent to F and the fixed explanation |
| SemcalOperators.DefaultRelaxOpIsRelaxation | src/semcal/operators/relax.cpp:7-21 | the result meets Axiom A |
| SemcalOperators.DefaultInfeasibleOp | src/semcal/operators/infeasible.cpp:9-14 | UNKNOWN with no value for every state |
| SemcalOperators.DefaultInfeasibleOpSound | src/semcal/operators/infeasible.cpp:9-14 | never answering UNSAT, it meets Axiom I |
| SemcalOperators.DefaultShadowOp | src/semcal/operators/shadow.cpp:7-13 | UNKNOWN, no value: no over-approximation is claimed |
| SemcalOperators.LpInfeasibleOp | src/semcal/operators/infeasible_lp.cpp:6-15 | UNSAT iff the LP backend refutes, with its certificate; otherwise UNKNOWN |
| SemcalOperators.LpInfeasibleSound | src/semcal/operators/infeasible_lp.cpp:6-15 | a refutation-sound backend gives a refutation-sound operator |
| SemcalOperators.LpAndCadWrappersAgree | src/semcal/operators/infeasible_lp.cpp:6-15 | the LP and CAD wrappers map backend answers identically |
| CadStub.CadStubRefute | src/semcal/backends/cad_stub.cpp:6-10 | UNKNOWN with no value |
| CadStub.CadStubDecompose | src/semcal/backends/cad_stub.cpp:12-21 | OK with the one-element list [σ] |
| CadStub.StubBehindWrapperIsUnknown | src/semcal/backends/cad_stub.cpp:6-10 | behind the CAD Infeasible wrapper the stub answers UNKNOWN |
| CadStub.StubDecomposeCovers | src/semcal/backends/cad_stub.cpp:12-21 | the stub's decomposition meets Axiom D |
| Backends.OnlyInfeasibleIsRefuteCertified | src/backends/cad_backend.cpp:36-42 | each backend certifies refutations for "Infeasible" and no other name |
| Backends.RefuteCertifiedIsSupported | src/backends/lp_backend.cpp:30-40 | a refute-certified name is a supported one, for each backend |
| Backends.DirectionsOfNames | src/backends/icp_backend.cpp:25-34 | unsupported names fall back to PRESERVING; only CAD Project and LP Relax over-approximate, only CAD Lift under-approximates |
| Backends.LpOptimizeIsPreserving | src/backends/lp_backend.cpp:30-40 | LP supports "Optimize" and reports it PRESERVING |
| Backends.CadSupportsOperator | src/backends/cad_backend.cpp:31-34 | definition: Project, Decompose, Infeasible, Lift; related to the directions by `RefuteCertifiedIsSupported` and `DirectionsOfNames` |
| Backends.CadApproxDirection | src/backends/cad_backend.cpp:36-42 | definition: the CAD direction table; stated by `OnlyInfeasibleIsRefuteCertified` and `DirectionsOfNames` |
| Backends.LpSupportsOperator | src/backends/lp_backend.cpp:30-33 | definition: Relax, Infeasible, Refine, Optimize; related to the directions by `RefuteCertifiedIsSupported` and `DirectionsOfNames` |
| Backends.LpApproxDirection | src/backends/lp_backend.cpp:35-40 | definition: the LP direction table; stated by `OnlyInfeasibleIsRefuteCertified`, `DirectionsOfNames` and `LpOptimizeIsPreserving` |
| Backends.IcpSupportsOperator | src/backends/icp_backend.cpp:25-27 | definition: Restrict, Decompose, Infeasible; related to the directions by `RefuteCertifiedIsSupported` and `DirectionsOfNames` |
| Backends.IcpApproxDirection | src/backends/icp_backend.cpp:29-34 | definition: the ICP direction table; stated by `OnlyInfeasibleIsRefuteCertified` and `DirectionsOfNames` |
| Backends.NatToString | src/backends/cad_backend.cpp:8-13 | a count prints as a non-empty string of decimal digits |
| Backends.LeadingDigits | src/backends/cad_backend.cpp:8-13 | the longest digit prefix |
| Backends.ParseNatToString | src/backends/cad_backend.cpp:8-13 | the printed count parses back to itself |
| Backends.CountReadsBack | src/backends/cad_backend.cpp:8-13 | a count printed before a non-digit reads back as itself |
| Backends.PrefixedCountReadsBack | src/backends/lp_backend.cpp:16-20 | a count after a fixed prefix reads back as itself |
| Backends.CadProjectionText | src/backends/cad_backend.cpp:8-13 | definition: the CAD projection witness text; `CadProjectionCountsReadBack` reads its counts back |
| Backends.CadDecompositionText | src/backends/cad_backend.cpp:16-20 | definition: the CAD decomposition witness text; `CadDecompositionCountReadsBack` reads its count back |
| Backends.CadRefutationText | src/backends/cad_backend.cpp:23-28 | definition: the CAD refutation witness text; `CadRefutationCountReadsBack` reads its count back |
| Backends.LpRelaxationText | src/backends/lp_backend.cpp:8-13 | definition: the LP relaxation witness text; `LpWitnessCountsReadBack` reads its count back |
| Backends.LpInfeasibilityText | src/backends/lp_backend.cpp:16-20 | definition: the Farkas witness text; `LpWitnessCountsReadBack` reads its count back |
| Backends.LpCutText | src/backends/lp_backend.cpp:23-27 | definition: the cut witness text; it prints no count |
| Backends.IcpContractionText | src/backends/icp_backend.cpp:8-14 | definition: the ICP contraction witness text; `IcpWitnessCountReadsBack` and `IcpContractionTextParts` read it back |
| Backends.CadProjectionCountsReadBack | src/backends/cad_backend.cpp:8-13 | both counts of the CAD projection text read back from their positions |
| Backends.CadDecompositionCountReadsBack | src/backends/cad_backend.cpp:16-20 | the cell count of the CAD decomposition text reads back from its position |
| Backends.CadRefutationCountReadsBack | src/backends/cad_backend.cpp:23-28 | the conflicting-constraint count of the CAD refutation text reads back from its position |
| Backends.LpWitnessCountsReadBack | src/backends/lp_backend.cpp:8-20 | every count an LP relaxation or Farkas text prints reads back from its position |
| Backends.IcpWitnessCountReadsBack | src/backends/icp_backend.cpp:8-14 | the contracted-variable count of the ICP text reads back from its position |
| Backends.IcpContractionTextParts | src/backends/icp_backend.cpp:8-14 | the ICP contraction text contains the method and rounding mode at their positions |
| Kernel.StepToString | src/semkernel/kernel.cpp:13-24 | "name(", then the input state's text (or nothing), then ")"; without output nothing follows, with one " -> " and the output's text follow |
| Kernel.Evidence.IsValid | src/semkernel/kernel.cpp:9-11 | definition: type and data both non-empty; `CheckStep` and the four checks accept exactly the evidence that passes it |
| Kernel.InputText | src/semkernel/kernel.cpp:16-18 | the text between the parentheses, empty when the step has no input state |
| Kernel.StepNameReadsBack | src/semkernel/kernel.cpp:13-24 | an operator name without '(' is the printed step's text before the first '(' |
| Kernel.CheckStep | src/semkernel/kernel.cpp:26-43 | OK iff the evidence is valid, else ERROR; on OK the step's output, or the state when there is none |
| Kernel.RunTrace | src/semkernel/kernel.cpp:45-63 | OK iff every step's evidence is valid, else ERROR; on OK the state the trace ends in |
| Kernel.FinalStateAppend | src/semkernel/kernel.cpp:45-63 | replaying two parts equals replaying the second from where the first ends |
| Kernel.AllValidAppend | src/semkernel/kernel.cpp:50-54 | a trace is valid iff both of its parts are |
| Kernel.FinalStateIsReached | src/semkernel/kernel.cpp:45-63 | the final state is the initial one or some step's output |
| Kernel.NoOutputsKeepInitial | src/semkernel/kernel.cpp:40-42 | a trace without outputs ends where it started |
| Kernel.CheckRefutation | src/semkernel/kernel.cpp:65-75 | accepts exactly the valid evidence |
| Kernel.CheckContainment | src/semkernel/kernel.cpp:77-88 | accepts exactly the valid evidence |
| Kernel.CheckCovering | src/semkernel/kernel.cpp:90-101 | accepts exactly the valid evidence |
| Kernel.CheckModelValidity | src/semkernel/kernel.cpp:103-114 | accepts every model |
| Kernel.KernelAcceptsFalseClaims | src/semkernel/kernel.cpp:65-114 | with valid evidence the kernel accepts a false refutation, containment, covering and model claim |
| Kernel.TraceAcceptsUnrelatedOutputs | src/semkernel/kernel.cpp:26-63 | a trace may jump to any state |
| SearchEngines.OutcomeReportsOnlyStrategyVerdicts | src/semsearch/search_engine.cpp:20-36 | never ERROR; SAT or UNSAT exactly when the strategy says so |
| SearchEngines.DefaultSearchEngine.constructor | src/semsearch/search_engine.cpp:6-8 | the policy recorded, the queue empty |
| SearchEngines.DefaultSearchEngine.PushState | src/semsearch/search_engine.cpp:39-41 | appends at the back |
| SearchEngines.DefaultSearchEngine.PopState | src/semsearch/search_engine.cpp:43-51 | the front state and the rest; null and unchanged on an empty queue |
| SearchEngines.DefaultSearchEngine.IsEmpty | src/semsearch/search_engine.cpp:53-55 | true iff the queue is empty |
| SearchEngines.DefaultSearchEngine.Size | src/semsearch/search_engine.cpp:57-59 | the queue length, zero iff empty |
| SearchEngines.DefaultSearchEngine.Clear | src/semsearch/search_engine.cpp:61-65 | the queue empty, the policy unchanged |
| SearchEngines.DefaultSearchEngine.Execute | src/semsearch/search_engine.cpp:10-37 | the strategy's SAT/UNSAT on the initial state, else UNKNOWN; queue left empty |
| SearchEngines.FirstInFirstOut | src/semsearch/search_engine.cpp:39-51 | two pushed states come out in order, then null |
| DepthFirst.DepthFirstSearch | src/semsolver/strategies/strategy.cpp:17-59 | the stack loop emits exactly the reference leaves; nothing for a negative depth bound; only leaves |
| DepthFirst.LeavesAreLeaves | src/semsolver/strategies/strategy.cpp:46-48 | every emitted state is classified a leaf |
| DepthFirst.ForestLeavesAreLeaves | src/semsolver/strategies/strategy.cpp:50-54 | the same for a list of pushed siblings |
| DepthFirst.NoLeafNoResult | src/semsolver/strategies/strategy.cpp:34-37 | when no state is a leaf nothing is emitted |
| DepthFirst.ForestNoLeafNoResult | src/semsolver/strategies/strategy.cpp:50-54 | the same for a list of pushed siblings |
| DepthFirst.LeafInitialIsTheResult | src/semsolver/strategies/strategy.cpp:23-48 | a leaf initial state within the bound is the whole result |
| DepthFirst.BranchWithoutChildrenIsDropped | src/semsolver/strategies/strategy.cpp:49-55 | a state split into no children disappears |
| DepthFirst.EmittedAreProduced | src/orchestration/strategy.cpp:18-53 | every emitted state descends from the initial state through Decompose outputs, by a path no longer than the depth bound allows |
| DepthFirst.ForestEmittedAreProduced | src/orchestration/strategy.cpp:45-50 | every state emitted from a list of pushed siblings descends from one of them within the depth bound |
| Frontier.BreadthFirstSearch | src/semsolver/strategies/strategy.cpp:65-103 | at most `bound` states, a prefix of the FIFO drain, all of it when the bound is not reached, only leaves |
| Frontier.ArgMin | src/semsolver/strategies/strategy.cpp:116-130 | an index of minimum heuristic, the earliest such |
| Frontier.BestFirstSearch | src/semsolver/strategies/strategy.cpp:110-158 | exactly the minimum-heuristic drain, only leaves |
| Frontier.DrainLeaves | src/semsolver/strategies/strategy.cpp:90-92 | the FIFO drain emits only leaves |
| Frontier.BestDrainLeaves | src/semsolver/strategies/strategy.cpp:145-147 | the best-first drain emits only leaves |
| Frontier.NoLeafDrainsNothing | src/semsolver/strategies/strategy.cpp:78-81 | without leaves the FIFO drain is empty |
| Frontier.NoLeafBestDrainsNothing | src/semsolver/strategies/strategy.cpp:133-136 | without leaves the best-first drain is empty |
| Frontier.DrainIsQueueBag | src/semsolver/strategies/strategy.cpp:65-103 | the FIFO drain emits exactly the multiset of leaves below the frontier |
| Frontier.BestDrainIsQueueBag | src/semsolver/strategies/strategy.cpp:110-158 | the best-first drain emits exactly that multiset too |
| Frontier.BreadthAndBestFirstAgree | src/semsolver/strategies/strategy.cpp:65-158 | breadth-first and best-first emit the same multiset of states |
| Frontier.DrainLosesNothing | src/semsolver/strategies/strategy.cpp:73-100 | when operators lose nothing, every model of a frontier state lies in some emitted state |
| Frontier.RunsLoseNothing | src/semsolver/strategies/strategy.cpp:65-158 | the same from the initial state, for breadth-first and best-first |
| LegacyStrategies.Classify | src/semsolver/strategies/strategy.cpp:34-55 | refuted iff Infeasible says UNSAT; dropped iff Decompose is not OK or has no value; leaf iff one child printing alike; else branch on the children |
| LegacyStrategies.WidthBound | src/semsolver/strategies/strategy.cpp:73 | `static_cast<size_t>(maxWidth)`: maxWidth when non-negative, beyond any reachable size when negative |
| LegacyStrategies.LegacyDepthFirstStrategy.constructor | include/semsolver/strategies/strategy.h:46 | stores maxDepth, 1000 by default |
| LegacyStrategies.LegacyDepthFirstStrategy.Execute | src/semsolver/strategies/strategy.cpp:17-59 | the depth-first leaves; nothing for negative maxDepth; no UNSAT state emitted |
| LegacyStrategies.LegacyBreadthFirstStrategy.constructor | include/semsolver/strategies/strategy.h:60 | stores maxWidth, 1000 by default |
| LegacyStrategies.LegacyBreadthFirstStrategy.Execute | src/semsolver/strategies/strategy.cpp:65-103 | a prefix of the FIFO drain, whole below the bound; at most maxWidth states; none for maxWidth 0; no UNSAT state emitted |
| LegacyStrategies.LegacyBestFirstStrategy.constructor | src/semsolver/strategies/strategy.cpp:105-108 | stores the heuristic |
| LegacyStrategies.LegacyBestFirstStrategy.Execute | src/semsolver/strategies/strategy.cpp:110-158 | the minimum-heuristic drain; no UNSAT state emitted |
| LegacyStrategies.DefaultPipelineMakesLeaves | src/operators/decompose.cpp:6-14 | under the default operators every state is a leaf |
| LegacyStrategies.DefaultPipelineReturnsInitial | src/semsolver/strategies/strategy.cpp:23-48 | with the default operators each strategy returns exactly the initial state |
| LegacyStrategies.AlwaysRefutedReturnsNothing | src/semsolver/strategies/strategy.cpp:34-37 | if Infeasible always says UNSAT, all three strategies return nothing |
| LegacyStrategies.SoundPipelineLosesNothing | src/semsolver/strategies/strategy.cpp:65-158 | with Axiom I, Axiom D and a Decompose that never fails, every model of σ₀ lies in an emitted state |
| LegacyStrategies.FailedDecomposeDropsTheState | src/semsolver/strategies/strategy.cpp:40-43 | a failing Decompose on an unrefuted state makes every strategy discard it |
| Orchestration.Classify | src/orchestration/strategy.cpp:31-50 | refuted iff the check is true; never dropped; leaf iff one state printing alike; else branch on the returned states |
| Orchestration.DepthFirstStrategy.constructor | include/orchestration/strategy.h:44 | stores maxDepth, 1000 by default |
| Orchestration.DepthFirstStrategy.Execute | src/orchestration/strategy.cpp:15-54 | the depth-first leaves; nothing for negative maxDepth; no refuted state emitted |
| Orchestration.BreadthFirstStrategy.constructor | include/orchestration/strategy.h:58 | stores maxWidth, 1000 by default |
| Orchestration.BreadthFirstStrategy.Execute | src/orchestration/strategy.cpp:60-95 | a prefix of the FIFO drain, whole below the bound; at most maxWidth states; none for maxWidth 0; no refuted state emitted |
| Orchestration.BestFirstStrategy.constructor | src/orchestration/strategy.cpp:97-100 | stores the heuristic |
| Orchestration.BestFirstStrategy.Execute | src/orchestration/strategy.cpp:102-147 | the minimum-heuristic drain; no refuted state emitted |
| Orchestration.SoundPipelineLosesNothing | src/orchestration/strategy.cpp:60-147 | with a sound check and a covering `applyToState`, every model of σ₀ lies in an emitted state |
| Orchestration.IdentityPipeline | src/orchestration/strategy.cpp:32-44 | a pipeline that never refutes and returns one clone |
| Orchestration.IdentityPipelineReturnsInitial | src/orchestration/strategy.cpp:21-44 | under it every state is a leaf and each strategy returns exactly σ₀ |
| Orchestration.AlwaysRefutedReturnsNothing | src/orchestration/strategy.cpp:32-37 | if the check always refutes, all three strategies return nothing |
| Orchestration.EmptyDecompositionLosesTheState | src/orchestration/strategy.cpp:46-50 | a decomposition into no states discards the state |
| Solvers.SemSolver.constructor | src/semsolver/solver.cpp:8-17 | stores the strategy, kernel, engine and policy unchanged |
| Solvers.DefaultStrategy | src/semsolver/solver.cpp:34-41 | definition: UNKNOWN for every state; `SolveWithDefault` states the answer it produces |
| Solvers.SemSolver.Solve | src/semsolver/solver.cpp:19-27 | the engine's answer for the strategy on σ₀ under the stored policy; never ERROR; kernel unused |
| Solvers.CreateDefault | src/semsolver/solver.cpp:29-51 | the UNKNOWN strategy, the default kernel and engine, DFS |
| Solvers.SolveWithDefault | src/semsolver/solver.cpp:34-41 | the default solver answers UNKNOWN for every state |
| Solvers.KernelIsNotConsulted | src/semsolver/solver.cpp:19-27 | two solvers differing only in their kernels answer alike |

## Left out

- Subclasses of `Formula`, `Model` and `AbstractElement` other than
  `ConcreteFormula`, `ConcreteModel` and `TopElement` are not modelled. User
  elements are opaque, known by their printed form, and their precision order
  is a parameter. The `dynamic_cast` failure branches of `equals` and
  `isEquivalent` therefore never occur.
- Memory ownership (`unique_ptr`, moves, `const_cast` on the priority-queue
  top) is not modelled. States are values.
- The heuristic's `double` is modelled as `int`, so NaN and rounding are not
  covered.
- `std::priority_queue` does not specify the order among equal heuristic
  values. The model takes the earliest-inserted state.
- `unordered_map` iteration order is unspecified in C++. The model uses
  insertion order, which fixes only the exact printed text.
- The witness structs are one `Witness` datatype: an explanation text and an
  exactness flag. The vectors that the backend witness texts print sizes of
  are given as their sizes. `IcpDecompWitness::toString` prints a
  floating-point split point and is not modelled.
- `Frontier.BreadthFirstSearch`: requires a ghost rank that drops from every
  state to each of its children, for every state of the type and not only the
  reachable ones. Such a rank exists only when the tree of states below every
  state is finite. Nothing is proved for an infinite tree, even where the
  source's width bound makes the loop stop, for example when one child is a
  leaf and the other splits forever and the width is 1.
- `Frontier.BestFirstSearch`: requires the same ghost rank, so it covers only
  finite state trees. The source can loop forever on a Decompose that keeps
  splitting.
- `LegacyStrategies.LegacyBreadthFirstStrategy.Execute`: requires the same
  ghost rank, so it covers only pipelines whose state trees are finite, even
  where the width bound would stop the source.
- `LegacyStrategies.LegacyBestFirstStrategy.Execute`: requires the same ghost
  rank, so it covers only finite state trees.
- `Orchestration.BreadthFirstStrategy.Execute`: requires the same ghost rank,
  so it covers only pipelines whose state trees are finite, even where the
  width bound would stop the source.
- `Orchestration.BestFirstStrategy.Execute`: requires the same ghost rank, so
  it covers only finite state trees.
- The no-loss lemmas (`Frontier.DrainLosesNothing`, `Frontier.RunsLoseNothing`,
  both `SoundPipelineLosesNothing`) carry the same finite-tree hypothesis.
- Integers are unbounded, so the model's depth counter never wraps. In C++
  the counter is an `int` that grows by one per Decompose step along a path,
  not with the stack. With `maxDepth` equal to `INT_MAX`, a chain of states
  that each split into one new child keeps the stack at one entry while
  `depth + 1` overflows. That is undefined behaviour, in practice the depth
  becomes `INT_MIN` and passes the bound check again, so the loop need not end.
  The three members below are proved for unbounded integers only.
- `DepthFirst.DepthFirstSearch`: termination and equality with `Leaves` are
  proved for every `maxDepth`, which does not cover the signed overflow of
  `depth + 1` when `maxDepth` is `INT_MAX`.
- `LegacyStrategies.LegacyDepthFirstStrategy.Execute`: the same; the
  `maxDepth == INT_MAX` overflow is not modelled.
- `Orchestration.DepthFirstStrategy.Execute`: the same; the
  `maxDepth == INT_MAX` overflow is not modelled.
- The search engine's strategy callback is a pure function of the state. A
  callback that pushes further states into the engine through a captured
  reference is not modelled, so the queue only ever holds the initial state.
- The pipelines and examples (`cad_refute_first`, `lp_guided_refine`, the
  OMT, counting and SAT solvers) are not modelled. They compose the modelled
  operators with real backends that are outside this model.
- The real CAD, LP and ICP procedures behind the backend interfaces are not
  part of the repository. They are function parameters here.
- The abstract `Infeasible::check` and `Decompose::applyToState` of the
  orchestration pipeline have no implementation in the repository. They are
  fields of `Orchestration.Pipeline`.
- `Galois.SatisfiesGaloisProperty` requires α(S) to be non-null, because the
  C++ dereferences it. The default abstraction returns null, so the check is
  undefined behaviour with the defaults.
- Virtual dispatch is resolved statically: each member models one override.
