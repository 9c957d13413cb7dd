/**
 * Backend capability tables and witness texts (src/backends/cad_backend.cpp,
 * src/backends/lp_backend.cpp, src/backends/icp_backend.cpp).
 *
 * A backend declares the operators it supports and, per operator name, the
 * approximation direction of its answers.  The witness `toString`s print
 * sizes of vectors in decimal; those sizes are the `nat` parameters here.
 */
module Backends {
  import opened OpResults

  /** `ApproxDirection` (include/backends/backend_capability.h). */
  datatype ApproxDirection = PRESERVING | OVER_APPROX | UNDER_APPROX | REFUTE_CERTIFIED

  // ----------------------------------------------------------------- Tables

  /** `CadBackend::supportsOperator`. */
  predicate CadSupportsOperator(op: string)
  {
    op == "Project" || op == "Decompose" || op == "Infeasible" || op == "Lift"
  }

  /** `CadBackend::getApproxDirection`: tested in order, PRESERVING when no name matches. */
  function CadApproxDirection(op: string): (r: ApproxDirection)
  {
    if op == "Project" then OVER_APPROX
    else if op == "Decompose" then PRESERVING
    else if op == "Infeasible" then REFUTE_CERTIFIED
    else if op == "Lift" then UNDER_APPROX
    else PRESERVING
  }

  /** `LpBackend::supportsOperator`. */
  predicate LpSupportsOperator(op: string)
  {
    op == "Relax" || op == "Infeasible" || op == "Refine" || op == "Optimize"
  }

  /** `LpBackend::getApproxDirection`. */
  function LpApproxDirection(op: string): (r: ApproxDirection)
  {
    if op == "Relax" then OVER_APPROX
    else if op == "Infeasible" then REFUTE_CERTIFIED
    else if op == "Refine" then PRESERVING
    else PRESERVING
  }

  /** `IcpBackend::supportsOperator`. */
  predicate IcpSupportsOperator(op: string)
  {
    op == "Restrict" || op == "Decompose" || op == "Infeasible"
  }

  /** `IcpBackend::getApproxDirection`. */
  function IcpApproxDirection(op: string): (r: ApproxDirection)
  {
    if op == "Restrict" then PRESERVING
    else if op == "Decompose" then PRESERVING
    else if op == "Infeasible" then REFUTE_CERTIFIED
    else PRESERVING
  }

  /** Every backend certifies refutations for "Infeasible" and for no other name. */
  lemma OnlyInfeasibleIsRefuteCertified(op: string)
    ensures CadApproxDirection(op) == REFUTE_CERTIFIED <==> op == "Infeasible"
    ensures LpApproxDirection(op) == REFUTE_CERTIFIED <==> op == "Infeasible"
    ensures IcpApproxDirection(op) == REFUTE_CERTIFIED <==> op == "Infeasible"
  {
  }

  /** Every backend supports "Infeasible", the one operator that may claim UNSAT. */
  lemma RefuteCertifiedIsSupported(op: string)
    ensures CadApproxDirection(op) == REFUTE_CERTIFIED ==> CadSupportsOperator(op)
    ensures LpApproxDirection(op) == REFUTE_CERTIFIED ==> LpSupportsOperator(op)
    ensures IcpApproxDirection(op) == REFUTE_CERTIFIED ==> IcpSupportsOperator(op)
  {
  }

  /**
   * A name a backend does not support falls through to PRESERVING; among
   * supported names only CAD's Project and LP's Relax over-approximate, and
   * only CAD's Lift under-approximates.
   */
  lemma DirectionsOfNames(op: string)
    ensures !CadSupportsOperator(op) ==> CadApproxDirection(op) == PRESERVING
    ensures !LpSupportsOperator(op) ==> LpApproxDirection(op) == PRESERVING
    ensures !IcpSupportsOperator(op) ==> IcpApproxDirection(op) == PRESERVING
    ensures CadApproxDirection(op) == OVER_APPROX <==> op == "Project"
    ensures CadApproxDirection(op) == UNDER_APPROX <==> op == "Lift"
    ensures LpApproxDirection(op) == OVER_APPROX <==> op == "Relax"
    ensures LpApproxDirection(op) != UNDER_APPROX && IcpApproxDirection(op) != UNDER_APPROX
    ensures IcpApproxDirection(op) != OVER_APPROX
  {
  }

  /** LP supports "Optimize" but declares no approximation for it. */
  lemma LpOptimizeIsPreserving()
    ensures LpSupportsOperator("Optimize") && LpApproxDirection("Optimize") == PRESERVING
  {
  }

  // ------------------------------------------------------- Decimal numbers

  predicate IsDigit(c: char)
  {
    '0' <= c <= '9'
  }

  predicate AllDigits(s: string)
  {
    forall i :: 0 <= i < |s| ==> IsDigit(s[i])
  }

  /** What `operator<<` prints for an unsigned count. */
  function NatToString(n: nat): (s: string)
    ensures |s| >= 1 && AllDigits(s)
  {
    if n < 10 then ["0123456789"[n]] else NatToString(n / 10) + ["0123456789"[n % 10]]
  }

  function DigitValue(c: char): (r: nat)
    requires IsDigit(c)
  {
    (c as int - '0' as int) as nat
  }

  /** The value of a string of decimal digits. */
  function ParseDigits(s: string): (r: nat)
    requires AllDigits(s)
  {
    if |s| == 0 then 0 else 10 * ParseDigits(s[..|s| - 1]) + DigitValue(s[|s| - 1])
  }

  /** The longest prefix of digits. */
  function LeadingDigits(s: string): (d: string)
    ensures AllDigits(d) && |d| <= |s| && d == s[..|d|]
  {
    if |s| == 0 || !IsDigit(s[0]) then "" else [s[0]] + LeadingDigits(s[1..])
  }

  /** Reads the count at the front of a text. */
  function ReadCount(s: string): (r: nat)
  {
    ParseDigits(LeadingDigits(s))
  }

  lemma {:induction false} ParseNatToString(n: nat)
    ensures ParseDigits(NatToString(n)) == n
  {
    if n >= 10 {
      var s := NatToString(n);
      assert s[..|s| - 1] == NatToString(n / 10);
      ParseNatToString(n / 10);
    }
  }

  lemma {:induction false} LeadingDigitsStop(d: string, rest: string)
    requires AllDigits(d)
    requires rest == "" || !IsDigit(rest[0])
    ensures LeadingDigits(d + rest) == d
  {
    if d != "" {
      assert (d + rest)[0] == d[0];
      assert (d + rest)[1..] == d[1..] + rest;
      LeadingDigitsStop(d[1..], rest);
      assert [d[0]] + d[1..] == d;
    } else {
      assert d + rest == rest;
    }
  }

  /** A count printed before a non-digit reads back as itself. */
  lemma CountReadsBack(n: nat, rest: string)
    requires rest == "" || !IsDigit(rest[0])
    ensures ReadCount(NatToString(n) + rest) == n
  {
    LeadingDigitsStop(NatToString(n), rest);
    ParseNatToString(n);
  }

  // ---------------------------------------------------------- Witness texts

  /** `CadProjectWitness::toString`. */
  function CadProjectionText(eliminatedVars: nat, projectionPolynomials: nat): (r: string)
  {
    "CAD Projection: eliminated " + NatToString(eliminatedVars) + " variables, "
      + NatToString(projectionPolynomials) + " projection polynomials"
  }

  /** `CadDecompWitness::toString`. */
  function CadDecompositionText(numCells: nat, decompositionType: string): (r: string)
  {
    "CAD Decomposition: " + NatToString(numCells) + " cells, type: " + decompositionType
  }

  /** `CadUnsatWitness::toString`. */
  function CadRefutationText(refutationMethod: string, conflictingConstraints: nat): (r: string)
  {
    "CAD Refutation: method=" + refutationMethod + ", conflicting constraints="
      + NatToString(conflictingConstraints)
  }

  /** `LpRelaxWitness::toString`. */
  function LpRelaxationText(relaxationType: string, relaxedConstraints: nat): (r: string)
  {
    "LP Relaxation: type=" + relaxationType + ", relaxed " + NatToString(relaxedConstraints) + " constraints"
  }

  /** `LpUnsatWitness::toString`. */
  function LpInfeasibilityText(farkasCoefficients: nat): (r: string)
  {
    "LP Infeasibility (Farkas): " + NatToString(farkasCoefficients) + " coefficients"
  }

  /** `LpCutWitness::toString`. */
  function LpCutText(cutType: string, cutConstraint: string): (r: string)
  {
    "LP Cut: type=" + cutType + ", constraint=" + cutConstraint
  }

  /** `IcpContractWitness::toString`. */
  function IcpContractionText(contractionMethod: string, roundingMode: string, contractedVars: nat): (r: string)
  {
    "ICP Contraction: method=" + contractionMethod + ", rounding=" + roundingMode
      + ", contracted " + NatToString(contractedVars) + " variables"
  }

  /** A count printed after a fixed prefix and before a non-digit reads back as itself. */
  lemma PrefixedCountReadsBack(prefix: string, n: nat, rest: string)
    requires rest == "" || !IsDigit(rest[0])
    ensures ReadCount((prefix + NatToString(n) + rest)[|prefix|..]) == n
  {
    assert (prefix + NatToString(n) + rest)[|prefix|..] == NatToString(n) + rest;
    CountReadsBack(n, rest);
  }

  /** Both counts of the CAD projection text read back from where they are printed. */
  lemma CadProjectionCountsReadBack(n: nat, m: nat)
    ensures ReadCount(CadProjectionText(n, m)[|"CAD Projection: eliminated "|..]) == n
    ensures ReadCount(CadProjectionText(n, m)[|"CAD Projection: eliminated " + NatToString(n) + " variables, "|..]) == m
  {
    var p := "CAD Projection: eliminated ";
    var q := " variables, ";
    var r := " projection polynomials";
    assert CadProjectionText(n, m) == p + NatToString(n) + (q + NatToString(m) + r);
    PrefixedCountReadsBack(p, n, q + NatToString(m) + r);
    assert CadProjectionText(n, m) == (p + NatToString(n) + q) + NatToString(m) + r;
    PrefixedCountReadsBack(p + NatToString(n) + q, m, r);
  }

  /** The cell count of the CAD decomposition text reads back from where it is printed. */
  lemma CadDecompositionCountReadsBack(n: nat, t: string)
    ensures ReadCount(CadDecompositionText(n, t)[|"CAD Decomposition: "|..]) == n
  {
    var r := " cells, type: " + t;
    assert CadDecompositionText(n, t) == "CAD Decomposition: " + NatToString(n) + r;
    PrefixedCountReadsBack("CAD Decomposition: ", n, r);
  }

  /** The conflicting-constraint count of the CAD refutation text reads back from where it is printed. */
  lemma CadRefutationCountReadsBack(n: nat, t: string)
    ensures ReadCount(CadRefutationText(t, n)[|"CAD Refutation: method=" + t + ", conflicting constraints="|..]) == n
  {
    var p := "CAD Refutation: method=" + t + ", conflicting constraints=";
    assert CadRefutationText(t, n) == p + NatToString(n) + "";
    PrefixedCountReadsBack(p, n, "");
  }

  /** Every count an LP witness text prints can be read back from the place it is printed. */
  lemma LpWitnessCountsReadBack(n: nat, t: string)
    ensures ReadCount(LpRelaxationText(t, n)[|"LP Relaxation: type=" + t + ", relaxed "|..]) == n
    ensures ReadCount(LpInfeasibilityText(n)[|"LP Infeasibility (Farkas): "|..]) == n
  {
    var p4 := "LP Relaxation: type=" + t + ", relaxed ";
    assert LpRelaxationText(t, n) == p4 + NatToString(n) + " constraints";
    PrefixedCountReadsBack(p4, n, " constraints");
    PrefixedCountReadsBack("LP Infeasibility (Farkas): ", n, " coefficients");
  }

  /** The count the ICP contraction text prints can be read back from the place it is printed. */
  lemma IcpWitnessCountReadsBack(n: nat, t: string, u: string)
    ensures ReadCount(IcpContractionText(t, u, n)[|"ICP Contraction: method=" + t + ", rounding=" + u + ", contracted "|..]) == n
  {
    var p6 := "ICP Contraction: method=" + t + ", rounding=" + u + ", contracted ";
    assert IcpContractionText(t, u, n) == p6 + NatToString(n) + " variables";
    PrefixedCountReadsBack(p6, n, " variables");
  }

  /** The ICP contraction text names the method, the rounding mode and the count. */
  lemma IcpContractionTextParts(contractionMethod: string, roundingMode: string, contractedVars: nat)
    ensures var s := IcpContractionText(contractionMethod, roundingMode, contractedVars);
      var k := |"ICP Contraction: method="|;
      && s[k..k + |contractionMethod|] == contractionMethod
      && s[k + |contractionMethod| + |", rounding="|..][..|roundingMode|] == roundingMode
  {
  }
}
