/**
 * The default semantic kernel (src/semkernel/kernel.cpp): it replays a
 * solver trace step by step and judges semantic claims.  The default
 * kernel only checks that each piece of evidence is non-empty; it never
 * looks at the states the claims are about.
 */
module Kernel {
  import opened OpResults
  import opened Models
  import opened Semantics
  import opened Concretizations
  import opened SemanticStates
  import opened Contracts

  /** `Evidence`: a kind tag ("refutation", "covering", ...) and its data. */
  datatype Evidence = Evidence(kind: string, data: string)
  {
    /** `isValid()`: both fields non-empty. */
    predicate IsValid()
    {
      |kind| > 0 && |data| > 0
    }
  }

  /** `Step`: an operator name, optional input and output states, and evidence. */
  datatype Step = Step(operatorName: string, inputState: Option<SemanticState>,
                       outputState: Option<SemanticState>, evidence: Evidence)

  /** The text printed between the parentheses: the input state, or nothing. */
  function InputText(step: Step): (r: string)
    ensures step.inputState.None? ==> r == ""
  {
    if step.inputState.Some? then SemanticStates.ToString(step.inputState.value) else ""
  }

  /** `Step::toString()`: "name(input)" followed by " -> output" when there is one. */
  function StepToString(step: Step): (s: string)
    ensures |s| > |step.operatorName| && s[..|step.operatorName| + 1] == step.operatorName + "("
    ensures var k := |step.operatorName| + 1 + |InputText(step)|;
            |s| > k && s[|step.operatorName| + 1..k] == InputText(step) && s[k] == ')'
    ensures step.outputState.None? ==> |s| == |step.operatorName| + |InputText(step)| + 2
    ensures step.outputState.Some? ==>
              var k := |step.operatorName| + |InputText(step)| + 2;
              s[k..] == " -> " + SemanticStates.ToString(step.outputState.value)
  {
    var head := step.operatorName + "(" + InputText(step) + ")";
    assert head[..|step.operatorName| + 1] == step.operatorName + "(";
    assert head[|step.operatorName| + 1..|head| - 1] == InputText(step);
    if step.outputState.Some? then
      var out := SemanticStates.ToString(step.outputState.value);
      assert (head + " -> " + out)[|head + " -> "|..] == out;
      head + " -> " + out
    else head
  }

  /** The text before the first occurrence of `c` (all of `s` when there is none). */
  function PrefixBefore(s: string, c: char): (p: string)
    ensures |p| <= |s| && p == s[..|p|] && c !in p
    ensures |p| < |s| ==> s[|p|] == c
  {
    if |s| == 0 || s[0] == c then "" else [s[0]] + PrefixBefore(s[1..], c)
  }

  lemma {:induction false} PrefixBeforeStops(p: string, c: char, rest: string)
    requires c !in p
    ensures PrefixBefore(p + [c] + rest, c) == p
  {
    if p != [] {
      assert (p + [c] + rest)[1..] == p[1..] + [c] + rest;
      PrefixBeforeStops(p[1..], c, rest);
      assert [p[0]] + p[1..] == p;
    } else {
      assert (p + [c] + rest)[0] == c;
    }
  }

  /** An operator name without '(' reads back from the printed step as the text before the first '('. */
  lemma StepNameReadsBack(step: Step)
    requires '(' !in step.operatorName
    ensures PrefixBefore(StepToString(step), '(') == step.operatorName
  {
    var s := StepToString(step);
    var n := |step.operatorName|;
    assert s == step.operatorName + ['('] + s[n + 1..] by {
      assert s[..n + 1] == step.operatorName + "(";
      assert s == s[..n + 1] + s[n + 1..];
    }
    PrefixBeforeStops(step.operatorName, '(', s[n + 1..]);
  }

  // ------------------------------------------------------------ Trace replay

  /** Every step of the trace carries well-formed evidence. */
  predicate AllValid(steps: seq<Step>)
  {
    forall i :: 0 <= i < |steps| ==> steps[i].evidence.IsValid()
  }

  /** The output of the last step that has one; the initial state when none has. */
  function FinalState(initial: SemanticState, steps: seq<Step>): (r: SemanticState)
  {
    if |steps| == 0 then initial
    else if steps[|steps| - 1].outputState.Some? then steps[|steps| - 1].outputState.value
    else FinalState(initial, steps[..|steps| - 1])
  }

  /**
   * `DefaultSemKernel::checkStep(σ, step)`: ERROR when the evidence is not
   * well-formed, otherwise OK with a copy of the step's output, or of σ
   * when the step has no output.
   */
  function CheckStep(state: SemanticState, step: Step): (r: OpResult<SemanticState>)
    ensures r.WellFormed()
    ensures r.status == OK <==> step.evidence.IsValid()
    ensures r.status != OK ==> r.status == ERROR && r.witnessData == DefaultWitness
    ensures r.status == OK ==> r.value == Some(FinalState(state, [step]))
  {
    if !step.evidence.IsValid() then Error()
    else if step.outputState.Some? then Ok(SemanticStates.Clone(step.outputState.value))
    else Ok(SemanticStates.Clone(state))
  }

  /**
   * `DefaultSemKernel::runTrace(σ₀, steps)`: checks the steps in order from
   * a copy of σ₀, stops at the first result that is not OK and returns it,
   * otherwise returns OK with the last state reached.
   */
  method RunTrace(initial: SemanticState, steps: seq<Step>) returns (r: OpResult<SemanticState>)
    ensures r.WellFormed()
    ensures r.status == OK <==> AllValid(steps)
    ensures r.status != OK ==> r.status == ERROR && r.witnessData == DefaultWitness
    ensures r.status == OK ==> r.value == Some(FinalState(initial, steps))
  {
    var current := SemanticStates.Clone(initial);
    var i := 0;
    while i < |steps|
      invariant 0 <= i <= |steps|
      invariant AllValid(steps[..i])
      invariant current == FinalState(initial, steps[..i])
    {
      assert steps[..i + 1][..i] == steps[..i];
      var result := CheckStep(current, steps[i]);
      if result.status != OK {
        assert !AllValid(steps) by {
          assert !steps[i].evidence.IsValid();
        }
        return result;
      }
      if result.value.Some? {
        current := result.value.value;
      }
      i := i + 1;
    }
    assert steps[..i] == steps;
    r := Ok(current);
  }

  /** A trace made of two parts replays as the second part run from where the first ends. */
  lemma {:induction false} FinalStateAppend(initial: SemanticState, first: seq<Step>, second: seq<Step>)
    ensures FinalState(initial, first + second) == FinalState(FinalState(initial, first), second)
  {
    if |second| == 0 {
      assert first + second == first;
    } else {
      var n := |first + second|;
      assert (first + second)[n - 1] == second[|second| - 1];
      assert (first + second)[..n - 1] == first + second[..|second| - 1];
      FinalStateAppend(initial, first, second[..|second| - 1]);
    }
  }

  /** Validity of the whole is validity of the parts. */
  lemma AllValidAppend(first: seq<Step>, second: seq<Step>)
    ensures AllValid(first + second) <==> AllValid(first) && AllValid(second)
  {
    if AllValid(first + second) {
      forall i | 0 <= i < |first| ensures first[i].evidence.IsValid() {
        assert (first + second)[i] == first[i];
      }
      forall i | 0 <= i < |second| ensures second[i].evidence.IsValid() {
        assert (first + second)[|first| + i] == second[i];
      }
    }
  }

  /** The state a trace ends in is its initial state or the output of one of its steps. */
  lemma {:induction false} FinalStateIsReached(initial: SemanticState, steps: seq<Step>)
    ensures FinalState(initial, steps) == initial
         || exists k :: 0 <= k < |steps| && steps[k].outputState == Some(FinalState(initial, steps))
  {
    if |steps| > 0 && steps[|steps| - 1].outputState.None? {
      var prefix := steps[..|steps| - 1];
      FinalStateIsReached(initial, prefix);
      if FinalState(initial, prefix) != initial {
        var k :| 0 <= k < |prefix| && prefix[k].outputState == Some(FinalState(initial, prefix));
        assert steps[k] == prefix[k];
      }
    }
  }

  /** A trace none of whose steps has an output ends where it started. */
  lemma {:induction false} NoOutputsKeepInitial(initial: SemanticState, steps: seq<Step>)
    requires forall i :: 0 <= i < |steps| ==> steps[i].outputState.None?
    ensures FinalState(initial, steps) == initial
  {
    if |steps| > 0 {
      NoOutputsKeepInitial(initial, steps[..|steps| - 1]);
    }
  }

  // ----------------------------------------------------------------- Claims

  /** `checkRefutation(σ, e)`: accepts exactly the well-formed evidence. */
  function CheckRefutation(state: SemanticState, evidence: Evidence): (r: bool)
    ensures r <==> evidence.IsValid()
  {
    evidence.IsValid()
  }

  /** `checkContainment(σ₁, σ₂, e)`: accepts exactly the well-formed evidence. */
  function CheckContainment(state1: SemanticState, state2: SemanticState, evidence: Evidence): (r: bool)
    ensures r <==> evidence.IsValid()
  {
    evidence.IsValid()
  }

  /** `checkCovering(σ, σs, e)`: accepts exactly the well-formed evidence. */
  function CheckCovering(state: SemanticState, decomposed: seq<SemanticState>, evidence: Evidence): (r: bool)
    ensures r <==> evidence.IsValid()
  {
    evidence.IsValid()
  }

  /** `checkModelValidity(σ, M)`: accepts every model. */
  function CheckModelValidity(state: SemanticState, model: ConcreteModel): (r: bool)
    ensures r
  {
    true
  }

  /**
   * The documented claims are Conc(σ) = ∅, Conc(σ₁) ⊆ Conc(σ₂),
   * Conc(σ) ⊆ ∪ᵢ Conc(σᵢ) and M ∈ Conc(σ).  With well-formed evidence the
   * default kernel accepts each of them even when it is false.
   */
  lemma KernelAcceptsFalseClaims(interpret: Interpretation, gamma: Concretization,
                                 s: SemanticState, t: SemanticState, m: ConcreteModel, e: Evidence)
    requires e.IsValid()
    requires m in Concretize(interpret, gamma, s) && m !in Concretize(interpret, gamma, t)
    ensures CheckRefutation(s, e) && !StateIsEmpty(interpret, gamma, s)
    ensures CheckContainment(s, t, e) && !(Concretize(interpret, gamma, s) <= Concretize(interpret, gamma, t))
    ensures CheckCovering(s, [t], e) && !Covers(interpret, gamma, s, [t])
    ensures CheckModelValidity(t, m) && m !in Concretize(interpret, gamma, t)
  {
  }

  /**
   * Replay accepts any trace whose evidence is well-formed, whatever its
   * states: a refutation step that jumps to an unrelated state is accepted.
   */
  lemma TraceAcceptsUnrelatedOutputs(initial: SemanticState, target: SemanticState, e: Evidence)
    requires e.IsValid()
    ensures AllValid([Step("Infeasible", Some(initial), Some(target), e)])
    ensures FinalState(initial, [Step("Infeasible", Some(initial), Some(target), e)]) == target
  {
  }
}
