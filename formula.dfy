/**
 * `ConcreteFormula` and `FormulaFactory` (src/core/formula.cpp).
 *
 * A concrete formula is the text of an SMT-LIB 2 term; the factory builds
 * prefix applications of `and`, `or`, `not` and `=>` in the concrete syntax
 * of section 3.6 of the SMT-LIB Standard v2.6.
 */
module Formulas {
  import opened OpResults

  datatype Formula = ConcreteFormula(expression: string)

  /** The `const char*` constructor: a null pointer stores "". */
  function FromCString(p: Option<string>): (f: Formula)
    ensures p.Some? ==> f.expression == p.value
    ensures p.None? ==> f.expression == ""
  {
    ConcreteFormula(if p.Some? then p.value else "")
  }

  /** `toString()`: the stored expression. */
  function ToString(f: Formula): (r: string)
  {
    f.expression
  }

  /** `clone()`: a copy with the same expression. */
  function Clone(f: Formula): (r: Formula)
    ensures r == f
  {
    ConcreteFormula(f.expression)
  }

  /** `isEquivalent(other)`: byte-identical expressions (syntactic check). */
  predicate IsEquivalent(f: Formula, g: Formula)
  {
    f.expression == g.expression
  }

  /** A clone prints the same and is equivalent to its original. */
  lemma CloneIsEquivalent(f: Formula)
    ensures ToString(Clone(f)) == ToString(f)
    ensures IsEquivalent(Clone(f), f) && IsEquivalent(f, Clone(f))
  {
  }

  /** `isEquivalent` is an equivalence relation, and it is exactly equality of formulas. */
  lemma IsEquivalentIsEquality(f: Formula, g: Formula, h: Formula)
    ensures IsEquivalent(f, g) <==> f == g
    ensures IsEquivalent(f, f)
    ensures IsEquivalent(f, g) ==> IsEquivalent(g, f)
    ensures IsEquivalent(f, g) && IsEquivalent(g, h) ==> IsEquivalent(f, h)
  {
  }

  /** " f1 f2 ... fn": each operand preceded by one space. */
  function Operands(fs: seq<Formula>): (r: string)
  {
    if |fs| == 0 then "" else Operands(fs[..|fs| - 1]) + " " + ToString(fs[|fs| - 1])
  }

  /** "(head f1 ... fn)". */
  function Application(head: string, fs: seq<Formula>): (r: string)
  {
    "(" + head + Operands(fs) + ")"
  }

  /** What `createConjunction` builds: "true" for no operands. */
  function Conjunction(fs: seq<Formula>): (r: Formula)
  {
    if |fs| == 0 then ConcreteFormula("true") else ConcreteFormula(Application("and", fs))
  }

  /** What `createDisjunction` builds: "false" for no operands. */
  function Disjunction(fs: seq<Formula>): (r: Formula)
  {
    if |fs| == 0 then ConcreteFormula("false") else ConcreteFormula(Application("or", fs))
  }

  /** `createNegation(f)`. */
  function Negation(f: Formula): (r: Formula)
  {
    ConcreteFormula("(not " + ToString(f) + ")")
  }

  /** `createImplication(p, c)`. */
  function Implication(premise: Formula, conclusion: Formula): (r: Formula)
  {
    ConcreteFormula("(=> " + ToString(premise) + " " + ToString(conclusion) + ")")
  }

  /** The stream loop shared by `createConjunction` and `createDisjunction`. */
  method StreamApplication(head: string, fs: seq<Formula>) returns (s: string)
    ensures s == Application(head, fs)
  {
    s := "(" + head;
    var i := 0;
    while i < |fs|
      invariant 0 <= i <= |fs|
      invariant s == "(" + head + Operands(fs[..i])
    {
      assert fs[..i + 1][..i] == fs[..i];
      s := s + " " + ToString(fs[i]);
      i := i + 1;
    }
    assert fs[..i] == fs;
    s := s + ")";
  }

  /** `createConjunction(formulas)`. */
  method CreateConjunction(fs: seq<Formula>) returns (r: Formula)
    ensures r == Conjunction(fs)
  {
    if |fs| == 0 {
      return ConcreteFormula("true");
    }
    var s := StreamApplication("and", fs);
    r := ConcreteFormula(s);
  }

  /** `createDisjunction(formulas)`. */
  method CreateDisjunction(fs: seq<Formula>) returns (r: Formula)
    ensures r == Disjunction(fs)
  {
    if |fs| == 0 {
      return ConcreteFormula("false");
    }
    var s := StreamApplication("or", fs);
    r := ConcreteFormula(s);
  }

  /** A single operand is still wrapped: "(and f)" and "(or f)", never f itself. */
  lemma SingletonIsWrapped(f: Formula)
    ensures ToString(Conjunction([f])) == "(and " + ToString(f) + ")"
    ensures ToString(Disjunction([f])) == "(or " + ToString(f) + ")"
    ensures Conjunction([f]) != f && Disjunction([f]) != f
  {
    assert [f][..0] == [];
    assert Operands([f]) == " " + ToString(f);
    assert "(" + "and" + (" " + ToString(f)) + ")" == "(and " + ToString(f) + ")";
    assert "(" + "or" + (" " + ToString(f)) + ")" == "(or " + ToString(f) + ")";
  }

  /** Two operands, the shape `Refine::apply` relies on. */
  lemma PairApplication(head: string, a: Formula, b: Formula)
    ensures Application(head, [a, b]) == "(" + head + " " + ToString(a) + " " + ToString(b) + ")"
  {
    assert [a, b][..1] == [a];
    assert [a][..0] == [];
    assert Operands([a]) == " " + ToString(a);
    assert Operands([a, b]) == Operands([a]) + " " + ToString(b);
  }

  /** Appending an operand adds " g" before the closing parenthesis. */
  lemma ApplicationSnoc(head: string, fs: seq<Formula>, g: Formula)
    ensures Application(head, fs + [g]) == "(" + head + Operands(fs) + " " + ToString(g) + ")"
  {
    assert (fs + [g])[..|fs|] == fs;
  }

  /** Recognises "(not X)" and gives back X: the inverse of `Negation`. */
  function StripNegation(s: string): (r: Option<Formula>)
    ensures r.Some? ==> Negation(r.value).expression == s
  {
    if |s| >= 6 && s[..5] == "(not " && s[|s| - 1] == ')' then
      Some(ConcreteFormula(s[5..|s| - 1]))
    else
      None
  }

  /** Negation can be undone, so distinct formulas have distinct negations. */
  lemma NegationRoundTrip(f: Formula)
    ensures StripNegation(Negation(f).expression) == Some(f)
  {
    var s := Negation(f).expression;
    assert s == "(not " + f.expression + ")";
    assert s[..5] == "(not ";
    assert s[5..|s| - 1] == f.expression;
  }

  lemma NegationInjective(f: Formula, g: Formula)
    ensures Negation(f) == Negation(g) ==> f == g
  {
    NegationRoundTrip(f);
    NegationRoundTrip(g);
  }

  /**
   * The printed implication does not determine its parts when operands
   * contain spaces: "a b" => "c" and "a" => "b c" print alike.
   */
  lemma ImplicationTextAmbiguous()
    ensures Implication(ConcreteFormula("a b"), ConcreteFormula("c"))
         == Implication(ConcreteFormula("a"), ConcreteFormula("b c"))
  {
  }
}
