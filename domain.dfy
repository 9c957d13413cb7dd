/**
 * Abstract elements and their precision order (src/domain/top_element.cpp,
 * src/domain/abstract_domain.cpp).
 *
 * `TopElement` is the only element class of the repository.  Every other
 * element is user-supplied: it is `Opaque` here, known by its printed form,
 * and its own `isLessPreciseThan` is the `PrecisionOracle` parameter.
 */
module Domain {

  datatype Element = Top | Opaque(printed: string)

  /** `isLessPreciseThan` of elements other than Top. */
  type PrecisionOracle = (Element, Element) -> bool

  /** `TopElement::equals(other)`: the other element is a Top element. */
  predicate TopEquals(other: Element)
  {
    other.Top?
  }

  /** `TopElement::isLessPreciseThan(other)`: Top is below everything but itself. */
  predicate TopIsLessPreciseThan(other: Element)
  {
    !TopEquals(other)
  }

  /** `TopElement::clone()`: a new Top element. */
  function TopClone(): (e: Element)
    ensures TopEquals(e)
  {
    Top
  }

  /** `toString()`: "⊤" for Top, the printed form otherwise. */
  function ElementToString(e: Element): (r: string)
  {
    match e
    case Top => "\U{22A4}"
    case Opaque(p) => p
  }

  /** `a.isLessPreciseThan(b)`, dispatched on the receiver a. */
  predicate IsLessPreciseThan(order: PrecisionOracle, a: Element, b: Element)
  {
    if a.Top? then TopIsLessPreciseThan(b) else order(a, b)
  }

  /** `AbstractElement::isMorePreciseThan(other)`: `other.isLessPreciseThan(*this)`. */
  predicate IsMorePreciseThan(order: PrecisionOracle, a: Element, b: Element)
  {
    IsLessPreciseThan(order, b, a)
  }

  /**
   * Top is below every other element, but not below itself: the order is
   * strict at Top, although the interface documents ⊑ as "less precise than
   * or equal to".
   */
  lemma TopOrder(order: PrecisionOracle, x: Element)
    ensures IsLessPreciseThan(order, Top, x) <==> x != Top
    ensures !IsLessPreciseThan(order, Top, Top)
  {
  }

  /** The flipped order: Top is never more precise than Top; any other x is more precise than Top. */
  lemma MorePreciseThanTop(order: PrecisionOracle, x: Element)
    ensures !IsMorePreciseThan(order, Top, Top)
    ensures x != Top ==> IsMorePreciseThan(order, x, Top)
  {
  }

  /** `isMorePreciseThan` is the converse of `isLessPreciseThan` for every receiver. */
  lemma MorePreciseIsConverse(order: PrecisionOracle, a: Element, b: Element)
    ensures IsMorePreciseThan(order, a, b) == IsLessPreciseThan(order, b, a)
  {
  }

  /** A clone of Top equals, prints like, and is ordered like the original. */
  lemma TopCloneAgrees(order: PrecisionOracle, x: Element)
    ensures ElementToString(TopClone()) == ElementToString(Top)
    ensures IsLessPreciseThan(order, TopClone(), x) == IsLessPreciseThan(order, Top, x)
  {
  }
}
