/**
 * Model sets and the default semantics (src/semcal/core/semantics.cpp).
 *
 * A `ModelSet` is a `std::set<std::shared_ptr<Model>>`: membership is by
 * object identity, never by `Model::equals`.  It is a set of references to
 * `ConcreteModel` objects here.  The subset tests of the concretisation,
 * the relaxation check and the Galois check compare models with `equals`
 * instead; that notion is `ContainedUpToEquals`, decided by the nested loop
 * `CheckContainedUpToEquals`.
 */
module Semantics {
  import opened Models
  import opened Formulas

  type ModelSet = set<ConcreteModel>

  /** [[.]]: the models of a formula. */
  type Interpretation = Formula -> ModelSet

  /** `intersect(s1, s2)`: the models held by both sets. */
  function Intersect(s1: ModelSet, s2: ModelSet): (r: ModelSet)
    ensures r <= s1 && r <= s2
    ensures forall m | m in s1 && m in s2 :: m in r
  {
    s1 * s2
  }

  /** `unionSet(s1, s2)`: the models held by either set. */
  function UnionSet(s1: ModelSet, s2: ModelSet): (r: ModelSet)
    ensures s1 <= r && s2 <= r
    ensures forall m | m in r :: m in s1 || m in s2
  {
    s1 + s2
  }

  /** `isEmpty(s)`. */
  predicate IsEmpty(s: ModelSet)
  {
    |s| == 0
  }

  lemma IsEmptyIffNoMember(s: ModelSet)
    ensures IsEmpty(s) <==> forall m :: m !in s
  {
    if forall m :: m !in s {
      assert s == {};
    }
  }

  /**
   * Membership is by identity: two distinct model objects with identical
   * assignments do not meet in an intersection, and both survive a union.
   */
  lemma IdentityNotEquality(m1: ConcreteModel, m2: ConcreteModel)
    requires m1 != m2 && m1.Equals(m2)
    ensures IsEmpty(Intersect({m1}, {m2}))
    ensures |UnionSet({m1}, {m2})| == 2
  {
  }

  /** Intersection and union are the lattice operations: absorption holds. */
  lemma Absorption(s1: ModelSet, s2: ModelSet)
    ensures UnionSet(s1, Intersect(s1, s2)) == s1
    ensures Intersect(s1, UnionSet(s1, s2)) == s1
  {
  }

  /** `DefaultSemantics::interpret`: no formula has models. */
  function DefaultInterpret(f: Formula): (r: ModelSet)
    ensures IsEmpty(r)
  {
    {}
  }

  /** `DefaultSemantics::satisfies(M, F)`: asks M about the printed F. */
  predicate DefaultSatisfies(m: ConcreteModel, f: Formula)
    reads m
  {
    m.Satisfies(ToString(f))
  }

  /** `DefaultSemantics::areEquivalent(f1, f2)`: asks f1. */
  predicate DefaultAreEquivalent(f1: Formula, f2: Formula)
  {
    IsEquivalent(f1, f2)
  }

  /** With the placeholder `Model::satisfies`, every model satisfies every formula. */
  lemma DefaultSatisfiesAll(m: ConcreteModel, f: Formula)
    ensures DefaultSatisfies(m, f)
  {
  }

  /** Default equivalence holds exactly between equal formulas. */
  lemma DefaultEquivalenceIsEquality(f1: Formula, f2: Formula)
    ensures DefaultAreEquivalent(f1, f2) <==> f1 == f2
  {
  }

  /** Every model of `a` is `equals` to some model of `b`: "a ⊆ b" as the loops test it. */
  ghost predicate ContainedUpToEquals(a: ModelSet, b: ModelSet)
    reads a, b
  {
    forall m :: m in a ==> exists o :: o in b && m.Equals(o)
  }

  /** Inclusion by identity implies inclusion up to `equals`. */
  lemma SubsetIsContained(a: ModelSet, b: ModelSet)
    requires a <= b
    ensures ContainedUpToEquals(a, b)
  {
    forall m | m in a
      ensures exists o :: o in b && m.Equals(o)
    {
      assert m in b && m.Equals(m);
    }
  }

  /** The empty set is contained in every set. */
  lemma EmptyIsContained(b: ModelSet)
    ensures ContainedUpToEquals({}, b)
  {
  }

  /**
   * The nested loop of `isSubset`, `isRelaxation` and the subset half of
   * `satisfiesGaloisProperty`: for each model of `a`, look for an `equals`
   * model in `b`; answer false at the first model without one.
   */
  method CheckContainedUpToEquals(a: ModelSet, b: ModelSet) returns (r: bool)
    ensures r <==> ContainedUpToEquals(a, b)
  {
    var todo := a;
    while todo != {}
      invariant todo <= a
      invariant forall m :: m in a && m !in todo ==> exists o :: o in b && m.Equals(o)
      decreases |todo|
    {
      var m :| m in todo;
      var found := false;
      var others := b;
      while others != {} && !found
        invariant others <= b
        invariant found ==> exists o :: o in b && m.Equals(o)
        invariant !found ==> forall o :: o in b && o !in others ==> !m.Equals(o)
        decreases |others|, !found
      {
        var o :| o in others;
        if m.Equals(o) {
          found := true;
        } else {
          others := others - {o};
        }
      }
      if !found {
        return false;
      }
      todo := todo - {m};
    }
    return true;
  }
}
