/** Which thrown values are worth a retry, and which mean that the event id is taken. */
module ErrorClassifier {
  import opened Wrappers

  datatype ErrorClass = Validation | Transient | Permanent

  datatype Kind = ValidationFailure | ErrorInstance | PlainObject | Primitive

  /** A thrown value, as far as its class and its two error codes go. A code that is no
      string is None. `queryFailed`: its constructor is named QueryFailedError. */
  datatype Thrown = Thrown(kind: Kind, code: Option<string>, driverCode: Option<string>, queryFailed: bool)

  const TRANSIENT_PG_CODES: set<string> :=
    {"08000", "08003", "08006", "08001", "08004", "57P03", "53300", "40001", "40P01"}

  const TRANSIENT_NODE_CODES: set<string> :=
    {"ECONNREFUSED", "ECONNRESET", "ETIMEDOUT", "ENOTFOUND", "EPIPE", "ENETUNREACH", "EAI_AGAIN"}

  const UNIQUE_VIOLATION_CODE: string := "23505"

  predicate Among(code: Option<string>, codes: set<string>) {
    code.Some? && code.value in codes
  }

  function ClassifyError(t: Thrown): ErrorClass {
    if t.kind.ValidationFailure? then Validation
    else if t.kind.ErrorInstance? then
      if Among(t.code, TRANSIENT_PG_CODES) then Transient
      else if Among(t.driverCode, TRANSIENT_PG_CODES) then Transient
      else if Among(t.code, TRANSIENT_NODE_CODES) then Transient
      else if t.queryFailed && Among(t.code, {UNIQUE_VIOLATION_CODE, "23503", "23502"}) then Permanent
      else Permanent
    else Permanent
  }

  predicate IsUniqueViolation(t: Thrown) {
    !t.kind.Primitive? && (t.code == Some(UNIQUE_VIOLATION_CODE) || t.driverCode == Some(UNIQUE_VIOLATION_CODE))
  }

  /** Retryable exactly when an Error carries a transient code of its own, or a transient
      Postgres code of its driver's; a network code of the driver's alone does not count. */
  lemma ClassifiedExactly(t: Thrown)
    ensures ClassifyError(t).Validation? <==> t.kind.ValidationFailure?
    ensures ClassifyError(t).Transient? <==>
            t.kind.ErrorInstance?
            && (Among(t.code, TRANSIENT_PG_CODES + TRANSIENT_NODE_CODES) || Among(t.driverCode, TRANSIENT_PG_CODES))
  {
  }

  lemma UniqueCodeIsNotTransient()
    ensures UNIQUE_VIOLATION_CODE !in TRANSIENT_PG_CODES + TRANSIENT_NODE_CODES
  {
    assert |UNIQUE_VIOLATION_CODE| == 5 && UNIQUE_VIOLATION_CODE[0] == '2';
    forall code | code in TRANSIENT_PG_CODES + TRANSIENT_NODE_CODES ensures code[0] != '2' {
    }
  }

  /** A unique violation is never retried when the wrapper's code is its driver's. */
  lemma UniqueViolationIsPermanent(t: Thrown)
    requires IsUniqueViolation(t) && t.kind.ErrorInstance? && (t.driverCode.Some? ==> t.code == t.driverCode)
    ensures ClassifyError(t) == Permanent
  {
    UniqueCodeIsNotTransient();
  }
}
