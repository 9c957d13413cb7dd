/**
 * The Galois-connection check α(S) ⊑ a ⟺ S ⊆ γ(a) (src/domain/galois.cpp).
 */
module Galois {
  import opened OpResults
  import opened Domain
  import opened Semantics
  import opened Concretizations

  /** α: the abstraction of a model set; `None` is a null pointer. */
  type Abstraction = ModelSet -> Option<Element>

  /**
   * `satisfiesGaloisProperty(S, a)`: whether "S ⊆ γ(a)" (up to `equals`)
   * agrees with "α(S) ⊑ a".  The call dereferences α(S), so α(S) must not
   * be null.
   */
  method SatisfiesGaloisProperty(alpha: Abstraction, gamma: Concretization, order: PrecisionOracle,
                                 s: ModelSet, a: Element) returns (r: bool)
    requires alpha(s).Some?
    ensures r <==> (ContainedUpToEquals(s, gamma(a)) <==> IsLessPreciseThan(order, alpha(s).value, a))
  {
    var abstracted := alpha(s).value;
    var concretized := gamma(a);
    var subset := CheckContainedUpToEquals(s, concretized);
    var lessPrecise := IsLessPreciseThan(order, abstracted, a);
    r := subset == lessPrecise;
  }

  /** For the empty model set the check reduces to α(∅) ⊑ a. */
  lemma EmptySetReducesToOrder(alpha: Abstraction, gamma: Concretization, order: PrecisionOracle, a: Element)
    requires alpha({}).Some?
    ensures (ContainedUpToEquals({}, gamma(a)) <==> IsLessPreciseThan(order, alpha({}).value, a))
         <==> IsLessPreciseThan(order, alpha({}).value, a)
  {
    EmptyIsContained(gamma(a));
  }

  /** `DefaultAbstraction::abstract`: always null. */
  function DefaultAbstract(s: ModelSet): (r: Option<Element>)
    ensures r.None?
  {
    None
  }

  /**
   * Because Top ⊑ Top is false, an abstraction that maps ∅ to Top fails the
   * check at (∅, Top) whatever γ is: ∅ ⊆ γ(Top) holds but α(∅) ⊑ Top does not.
   */
  lemma TopAbstractionFailsOnEmptySet(alpha: Abstraction, gamma: Concretization, order: PrecisionOracle)
    requires alpha({}) == Some(Top)
    ensures !(ContainedUpToEquals({}, gamma(Top)) <==> IsLessPreciseThan(order, alpha({}).value, Top))
  {
    EmptyIsContained(gamma(Top));
  }
}
