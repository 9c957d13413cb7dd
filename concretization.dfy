/**
 * Concretisation γ and its derived tests (src/domain/concretization.cpp).
 */
module Concretizations {
  import opened Domain
  import opened Semantics

  /** γ: the models an abstract element stands for. */
  type Concretization = Element -> ModelSet

  /** `isEmpty(a)`: γ(a) has no models. */
  predicate ConcretizationIsEmpty(gamma: Concretization, a: Element)
  {
    IsEmpty(gamma(a))
  }

  /** `isSubset(a, b)`: every model of γ(a) is `equals` to a model of γ(b). */
  method IsSubset(gamma: Concretization, a: Element, b: Element) returns (r: bool)
    ensures r <==> ContainedUpToEquals(gamma(a), gamma(b))
    ensures IsEmpty(gamma(a)) ==> r
  {
    r := CheckContainedUpToEquals(gamma(a), gamma(b));
    if IsEmpty(gamma(a)) {
      assert gamma(a) == {};
      EmptyIsContained(gamma(b));
    }
  }

  /** `DefaultConcretization::concretize`: the empty set for every element. */
  function DefaultConcretize(a: Element): (r: ModelSet)
    ensures IsEmpty(r)
  {
    {}
  }

  /** Under the default concretisation every element is empty and a subset of every other. */
  lemma DefaultConcretizationIsDegenerate(a: Element, b: Element)
    ensures ConcretizationIsEmpty(DefaultConcretize, a)
    ensures ContainedUpToEquals(DefaultConcretize(a), DefaultConcretize(b))
  {
    EmptyIsContained(DefaultConcretize(b));
  }
}
