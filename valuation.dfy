/**
 * The `std::unordered_map<std::string, std::string>` behind partial models
 * (src/semcal/core/partial_model.cpp) and concrete models
 * (src/core/model.cpp).
 *
 * A valuation holds the bindings together with the order in which the map
 * is iterated.  C++ leaves that order unspecified; here it is the order in
 * which variables were first bound, and nothing proved below depends on it
 * except the exact printed text.
 */
module Valuations {

  datatype Valuation = Valuation(assignments: map<string, string>, order: seq<string>)
  {
    /** The iteration order lists every bound variable exactly once. */
    ghost predicate Valid()
    {
      && (forall i, j :: 0 <= i < j < |order| ==> order[i] != order[j])
      && (forall x :: x in assignments <==> x in order)
    }

    /** `getAssignment(x)`: the bound value, or "" when x is unbound. */
    function Get(x: string): (r: string)
      ensures x in assignments ==> r == assignments[x]
      ensures x !in assignments ==> r == ""
    {
      if x in assignments then assignments[x] else ""
    }

    /** `hasAssignment(x)`. */
    predicate Has(x: string)
    {
      x in assignments
    }

    /** `assignments_.empty()`. */
    predicate IsEmpty()
    {
      |assignments| == 0
    }

    /** `assignments_[x] = v`: bind or overwrite x. */
    function Set(x: string, v: string): (r: Valuation)
      ensures r.Has(x) && r.Get(x) == v
      ensures forall y :: y != x ==> r.Has(y) == Has(y) && r.Get(y) == Get(y)
      ensures Valid() ==> r.Valid()
    {
      Valuation(assignments[x := v], if x in assignments then order else order + [x])
    }
  }

  /** The empty map of a default-constructed model. */
  const Empty: Valuation := Valuation(map[], [])

  /** `vars` names every bound variable of `v` exactly once and nothing else. */
  ghost predicate ListsEachBoundOnce(v: Valuation, vars: seq<string>)
  {
    && (forall x :: x in vars <==> v.Has(x))
    && (forall i, j :: 0 <= i < j < |vars| ==> vars[i] != vars[j])
  }

  lemma EmptyIsValid()
    ensures Empty.Valid() && Empty.IsEmpty()
  {
  }

  /** On a valid valuation, emptiness of the map and of the order agree. */
  lemma IsEmptyIffNoOrder(v: Valuation)
    requires v.Valid()
    ensures v.IsEmpty() <==> v.order == []
  {
    if v.order == [] {
      assert forall x :: x !in v.assignments.Keys;
      assert v.assignments.Keys == {};
    } else {
      assert v.order[0] in v.assignments;
    }
  }

  /** Binding x then reading any variable sees the new binding only at x. */
  lemma GetAfterSet(v: Valuation, x: string, val: string, y: string)
    ensures v.Set(x, val).Get(y) == (if y == x then val else v.Get(y))
  {
  }

  /** Binding x twice keeps only the later value. */
  lemma SetOverwrites(v: Valuation, x: string, a: string, b: string)
    ensures v.Set(x, a).Set(x, b).assignments == v.Set(x, b).assignments
  {
  }

  /** "x = v" for one binding. */
  function Entry(v: Valuation, x: string): (r: string)
  {
    x + " = " + v.Get(x)
  }

  /** The entries of the first n variables in iteration order, joined by ", ". */
  function Entries(v: Valuation, n: nat): (r: string)
    requires n <= |v.order|
  {
    if n == 0 then ""
    else if n == 1 then Entry(v, v.order[0])
    else Entries(v, n - 1) + ", " + Entry(v, v.order[n - 1])
  }

  /** The printed form shared by `PartialModel::toString` and `ConcreteModel::toString`. */
  function Render(v: Valuation): (r: string)
  {
    "{" + Entries(v, |v.order|) + "}"
  }

  /** The printed form is "{}" exactly when there is nothing to print. */
  lemma RenderEmptyIff(v: Valuation)
    ensures Render(v) == "{}" <==> v.order == []
  {
    if v.order != [] {
      EntriesNonEmpty(v, |v.order|);
    }
  }

  lemma {:induction false} EntriesNonEmpty(v: Valuation, n: nat)
    requires 1 <= n <= |v.order|
    ensures |Entries(v, n)| >= 3
  {
    if n > 1 {
      EntriesNonEmpty(v, n - 1);
    }
  }

  /** The entries of a prefix only depend on the variables and values in that prefix. */
  lemma {:induction false} EntriesAgree(v: Valuation, w: Valuation, n: nat)
    requires n <= |v.order| && n <= |w.order|
    requires v.order[..n] == w.order[..n]
    requires forall i :: 0 <= i < n ==> v.Get(v.order[i]) == w.Get(v.order[i])
    ensures Entries(v, n) == Entries(w, n)
  {
    if n > 0 {
      assert v.order[n - 1] == v.order[..n][n - 1] == w.order[..n][n - 1] == w.order[n - 1];
      if n > 1 {
        assert v.order[..n - 1] == v.order[..n][..n - 1];
        assert w.order[..n - 1] == w.order[..n][..n - 1];
        EntriesAgree(v, w, n - 1);
      } else {
        assert v.order[0] == w.order[0];
      }
    }
  }

  /**
   * Binding a fresh variable in a non-empty valuation prints as the old text
   * with ", x = val" inserted before the closing brace.
   */
  lemma RenderSetFresh(v: Valuation, x: string, val: string)
    requires v.Valid() && !v.Has(x) && v.order != []
    ensures Render(v.Set(x, val))
         == "{" + Entries(v, |v.order|) + ", " + x + " = " + val + "}"
  {
    var w := v.Set(x, val);
    var n := |v.order|;
    assert w.order == v.order + [x];
    assert w.order[..n] == v.order[..n];
    forall i | 0 <= i < n
      ensures v.Get(v.order[i]) == w.Get(v.order[i])
    {
      assert v.order[i] in v.assignments;
    }
    EntriesAgree(v, w, n);
    assert Entries(w, n + 1) == Entries(w, n) + ", " + Entry(w, x);
  }

  /** Printing loop with a `first` flag, as both model classes write it. */
  method Print(v: Valuation) returns (s: string)
    ensures s == Render(v)
  {
    s := "{";
    var first := true;
    var i := 0;
    while i < |v.order|
      invariant 0 <= i <= |v.order|
      invariant first <==> i == 0
      invariant s == "{" + Entries(v, i)
    {
      var x := v.order[i];
      if !first {
        s := s + ", ";
      }
      s := s + x + " = " + v.Get(x);
      first := false;
      i := i + 1;
    }
    s := s + "}";
  }

  /** Collecting loop of `getAssignedVariables`. */
  method AssignedVariables(v: Valuation) returns (vars: seq<string>)
    requires v.Valid()
    ensures vars == v.order
    ensures ListsEachBoundOnce(v, vars)
  {
    vars := [];
    var i := 0;
    while i < |v.order|
      invariant 0 <= i <= |v.order|
      invariant vars == v.order[..i]
    {
      vars := vars + [v.order[i]];
      i := i + 1;
    }
    assert v.order[..i] == v.order;
  }
}
