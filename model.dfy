/**
 * `ConcreteModel` (src/core/model.cpp): a total assignment of string values
 * to variables, updated in place by `setAssignment`.
 *
 * Only the concrete subclass exists in this model, so the `dynamic_cast`
 * in `equals` always succeeds.
 */
module Models {
  import opened Valuations

  class ConcreteModel {
    var content: Valuation

    ghost predicate Valid()
      reads this
    {
      content.Valid()
    }

    /** `ConcreteModel()`: no assignments. */
    constructor ()
      ensures Valid() && content == Empty
    {
      content := Empty;
    }

    /** `ConcreteModel(assignments)`. */
    constructor FromAssignments(v: Valuation)
      requires v.Valid()
      ensures Valid() && content == v
    {
      content := v;
    }

    /** `setAssignment(x, v)`: bind or overwrite x in place. */
    method SetAssignment(x: string, val: string)
      requires Valid()
      modifies this
      ensures Valid() && content == old(content).Set(x, val)
      ensures HasAssignment(x) && GetAssignment(x) == val
      ensures forall y :: y != x ==> GetAssignment(y) == old(GetAssignment(y))
    {
      content := content.Set(x, val);
    }

    /** `getAssignment(x)`: "" for an unbound variable. */
    function GetAssignment(x: string): (r: string)
      reads this
    {
      content.Get(x)
    }

    function HasAssignment(x: string): (r: bool)
      reads this
    {
      content.Has(x)
    }

    /** `satisfies(constraint)`: a placeholder that accepts every constraint. */
    predicate Satisfies(constraint: string)
    {
      true
    }

    /** `toString()`: "{" + the "x = v" entries joined by ", " + "}". */
    method ToString() returns (s: string)
      ensures s == Render(content)
    {
      s := Print(content);
    }

    /** `clone()`: a fresh model with the same assignments. */
    method Clone() returns (c: ConcreteModel)
      requires Valid()
      ensures fresh(c) && c.Valid() && c.content == content
      ensures c.Equals(this)
    {
      c := new ConcreteModel.FromAssignments(content);
    }

    /** `equals(other)`: the two assignment maps are identical. */
    predicate Equals(other: ConcreteModel)
      reads this, other
    {
      content.assignments == other.content.assignments
    }
  }

  /** `satisfies` accepts every constraint string. */
  lemma SatisfiesEveryConstraint(m: ConcreteModel, constraint: string)
    ensures m.Satisfies(constraint)
  {
  }

  /** `equals` is an equivalence relation on concrete models. */
  lemma EqualsIsEquivalence(m: ConcreteModel, n: ConcreteModel, k: ConcreteModel)
    ensures m.Equals(m)
    ensures m.Equals(n) == n.Equals(m)
    ensures m.Equals(n) && n.Equals(k) ==> m.Equals(k)
  {
  }

  /**
   * Two models are `equals` exactly when no `hasAssignment` or
   * `getAssignment` query tells them apart.
   */
  lemma EqualsIffIndistinguishable(m: ConcreteModel, n: ConcreteModel)
    ensures m.Equals(n) <==>
      forall x :: m.HasAssignment(x) == n.HasAssignment(x) && m.GetAssignment(x) == n.GetAssignment(x)
  {
    var a, b := m.content.assignments, n.content.assignments;
    if forall x :: m.HasAssignment(x) == n.HasAssignment(x) && m.GetAssignment(x) == n.GetAssignment(x) {
      assert a.Keys == b.Keys by {
        forall x
          ensures x in a <==> x in b
        {
          assert m.HasAssignment(x) == n.HasAssignment(x);
        }
      }
      forall x | x in a
        ensures a[x] == b[x]
      {
        assert m.GetAssignment(x) == n.GetAssignment(x);
      }
      assert a == b;
    }
  }
}
