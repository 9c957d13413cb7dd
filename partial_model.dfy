/**
 * `PartialModel` μ (src/semcal/core/partial_model.cpp): the variable
 * assignments fixed so far on a search branch, updated in place.
 */
module PartialModels {
  import opened Valuations
  import opened Models

  class PartialModel {
    var content: Valuation

    ghost predicate Valid()
      reads this
    {
      content.Valid()
    }

    /** `PartialModel()`: the empty partial model. */
    constructor ()
      ensures Valid() && content == Empty && IsEmpty()
    {
      content := Empty;
    }

    /** `PartialModel(assignments)`. */
    constructor FromAssignments(v: Valuation)
      requires v.Valid()
      ensures Valid() && content == v
    {
      content := v;
    }

    /** `setAssignment(x, v)`: bind or overwrite x; no other variable changes. */
    method SetAssignment(x: string, val: string)
      requires Valid()
      modifies this
      ensures Valid() && content == old(content).Set(x, val)
      ensures HasAssignment(x) && GetAssignment(x) == val
      ensures forall y :: y != x ==>
        HasAssignment(y) == old(HasAssignment(y)) && GetAssignment(y) == old(GetAssignment(y))
    {
      content := content.Set(x, val);
    }

    /** `getAssignment(x)`: "" for an unbound variable. */
    function GetAssignment(x: string): (r: string)
      reads this
    {
      content.Get(x)
    }

    function HasAssignment(x: string): (r: bool)
      reads this
    {
      content.Has(x)
    }

    /** `isExtendedBy(M)`: a placeholder that accepts every total model. */
    predicate IsExtendedBy(m: ConcreteModel)
    {
      true
    }

    /** `getAssignedVariables()`: each bound variable once, in iteration order. */
    method GetAssignedVariables() returns (vars: seq<string>)
      requires Valid()
      ensures vars == content.order
      ensures ListsEachBoundOnce(content, vars)
    {
      vars := AssignedVariables(content);
    }

    function IsEmpty(): (r: bool)
      reads this
    {
      content.IsEmpty()
    }

    /** `toString()`: "{}" when empty, else the entries joined by ", " in braces. */
    method ToString() returns (s: string)
      requires Valid()
      ensures s == Render(content)
      ensures s == "{}" <==> IsEmpty()
    {
      IsEmptyIffNoOrder(content);
      RenderEmptyIff(content);
      if content.IsEmpty() {
        return "{}";
      }
      s := Print(content);
    }

    /** `clone()`: a fresh partial model with the same assignment map. */
    method Clone() returns (c: PartialModel)
      requires Valid()
      ensures fresh(c) && c.Valid() && c.content == content
    {
      c := new PartialModel.FromAssignments(content);
    }
  }

  /** `isExtendedBy` currently holds for every pair. */
  lemma ExtendedByEveryModel(mu: PartialModel, m: ConcreteModel)
    ensures mu.IsExtendedBy(m)
  {
  }

  /** The printed form is "{}" exactly for the empty partial model. */
  lemma PrintedEmptyIff(mu: PartialModel)
    requires mu.Valid()
    ensures Render(mu.content) == "{}" <==> mu.IsEmpty()
  {
    IsEmptyIffNoOrder(mu.content);
    RenderEmptyIff(mu.content);
  }
}
