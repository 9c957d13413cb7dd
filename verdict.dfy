/**
 * What a worklist strategy learns about one popped state from its two
 * operators: Infeasible refuted it, Decompose gave no usable answer, the
 * state is a leaf (Decompose returned one child printing like the parent),
 * or it branches into the returned children.
 */
module Verdicts {
  datatype Verdict<S> = Refuted | Dropped | Leaf | Branch(children: seq<S>)
}
