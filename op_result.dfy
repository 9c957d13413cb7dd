/**
 * Tagged operator results (include/util/op_result.h).
 *
 * An operator answers with a status, an optional value and a witness.  The
 * factories of the general template attach a value exactly for OK and
 * PARTIAL; the specialisation for operators without a value (`void`) derives
 * `has_value()` from the status alone.
 */
module OpResults {

  datatype Option<+T> = None | Some(value: T)

  /** The five answers an operator may give. */
  datatype OpStatus = OK | UNSAT | UNKNOWN | PARTIAL | ERROR

  /**
   * Every witness struct of the core is a text payload (an explanation, a
   * CAD refutation reason, an LP certificate), and the restriction witness
   * adds an exactness flag.  One datatype stands for all of them.
   */
  datatype Witness = Witness(explanation: string, isExact: bool)

  /** The value-initialised witness `{}`: empty text, not exact. */
  const DefaultWitness: Witness := Witness("", false)

  /** The statuses that report progress and so come with a value. */
  predicate CarriesValue(s: OpStatus)
  {
    s == OK || s == PARTIAL
  }

  /** `OpResult<T, W>` for a non-void T. */
  datatype OpResult<+T> = OpResult(status: OpStatus, value: Option<T>, witnessData: Witness)
  {
    /** `has_value()`: the optional value is present. */
    predicate HasValue()
    {
      value.Some?
    }

    /** The invariant the factories establish. */
    predicate WellFormed()
    {
      HasValue() <==> CarriesValue(status)
    }
  }

  /** `ok(v)`: progress with value v and the default witness. */
  function Ok<T>(v: T): (r: OpResult<T>)
    ensures r.WellFormed() && r.HasValue() && r.value.value == v
    ensures r.status == OK && r.witnessData == DefaultWitness
  {
    OpResult(OK, Some(v), DefaultWitness)
  }

  /** `partial(v)`: progress with residual obligations, value v. */
  function Partial<T>(v: T): (r: OpResult<T>)
    ensures r.WellFormed() && r.HasValue() && r.value.value == v
    ensures r.status == PARTIAL && r.witnessData == DefaultWitness
  {
    OpResult(PARTIAL, Some(v), DefaultWitness)
  }

  /** `unsat(w)`: a refutation, no value, carrying the caller's witness. */
  function Unsat<T>(w: Witness): (r: OpResult<T>)
    ensures r.WellFormed() && !r.HasValue()
    ensures r.status == UNSAT && r.witnessData == w
  {
    OpResult(UNSAT, None, w)
  }

  /** `unknown()`: no claim, no value, default witness. */
  function Unknown<T>(): (r: OpResult<T>)
    ensures r.WellFormed() && !r.HasValue()
    ensures r.status == UNKNOWN && r.witnessData == DefaultWitness
  {
    OpResult(UNKNOWN, None, DefaultWitness)
  }

  /** `error()`: a failure that is not a semantic claim; no value. */
  function Error<T>(): (r: OpResult<T>)
    ensures r.WellFormed() && !r.HasValue()
    ensures r.status == ERROR && r.witnessData == DefaultWitness
  {
    OpResult(ERROR, None, DefaultWitness)
  }

  /** `OpResult<void, W>`: a status and a witness, no value slot. */
  datatype VoidResult = VoidResult(status: OpStatus, witnessData: Witness)
  {
    /** For void, `has_value()` is decided by the status. */
    predicate HasValue()
    {
      CarriesValue(status)
    }
  }

  function VoidOk(): (r: VoidResult)
    ensures r.status == OK && r.HasValue() && r.witnessData == DefaultWitness
  {
    VoidResult(OK, DefaultWitness)
  }

  function VoidUnsat(w: Witness): (r: VoidResult)
    ensures r.status == UNSAT && !r.HasValue() && r.witnessData == w
  {
    VoidResult(UNSAT, w)
  }

  function VoidUnknown(): (r: VoidResult)
    ensures r.status == UNKNOWN && !r.HasValue() && r.witnessData == DefaultWitness
  {
    VoidResult(UNKNOWN, DefaultWitness)
  }

  function VoidError(): (r: VoidResult)
    ensures r.status == ERROR && !r.HasValue() && r.witnessData == DefaultWitness
  {
    VoidResult(ERROR, DefaultWitness)
  }

  /**
   * On every well-formed result the general `has_value()` agrees with the
   * status test of the void specialisation: the two readings of "this
   * answer carries progress" coincide.
   */
  lemma HasValueAgreesWithVoid<T>(r: OpResult<T>)
    requires r.WellFormed()
    ensures r.HasValue() == VoidResult(r.status, r.witnessData).HasValue()
  {
  }
}
