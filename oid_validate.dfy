/** What ObjectIdentifier.Validate of smi/oid.go reports: the first violation
    of the structural constraints, checked in a fixed order. */
module OidValidation {
  import opened Wrappers
  import opened Oid

  /** The arcs before index n pass every per-element check. */
  predicate CleanArcsBefore(o: ObjectIdentifier, n: nat)
    requires n <= |o|
  {
    (forall k | 0 <= k < n :: ArcInRange(o[k])) && (0 < n ==> o[0] <= 2)
  }

  /** Each error of Validate describes the first violation: the length is
      checked first, then the arcs left to right; within one arc, negative
      before too large before a bad root arc. Positions are 1-based. */
  predicate ReportsFirstViolation(o: ObjectIdentifier, e: ValidationError) {
    match e
    case TooFewSubIdentifiers => |o| < 2
    case NegativeSubIdentifier(p, v) =>
      |o| >= 2 && 1 <= p <= |o| && o[p - 1] == v && v < 0 && CleanArcsBefore(o, p - 1)
    case SubIdentifierTooLarge(p, v) =>
      |o| >= 2 && 1 <= p <= |o| && o[p - 1] == v && v > MaxUint32 && CleanArcsBefore(o, p - 1)
    case FirstSubIdentifierOutOfRange(v) =>
      |o| >= 2 && o[0] == v && 2 < v <= MaxUint32
  }

  lemma {:induction false} ValidateFromReportsFirst(o: ObjectIdentifier, i: nat)
    requires |o| >= 2 && i <= |o| && CleanArcsBefore(o, i)
    decreases |o| - i
    ensures ValidateFrom(o, i).Some? ==> ReportsFirstViolation(o, ValidateFrom(o, i).value)
  {
    if i < |o| && ArcError(i, o[i]).None? {
      assert CleanArcsBefore(o, i + 1);
      ValidateFromReportsFirst(o, i + 1);
    }
  }

  lemma ValidateReportsFirstViolation(o: ObjectIdentifier)
    ensures Validate(o).Some? ==> ReportsFirstViolation(o, Validate(o).value)
  {
    if |o| >= 2 {
      ValidateFromReportsFirst(o, 0);
    }
  }

  /** Validate does not enforce the limit of 128 sub-identifiers of section
      7.1.3 of RFC 2578: an OID of 129 arcs is valid. */
  lemma NoArcCountLimit()
    ensures IsValid(seq(129, k => 1))
  {
  }

  /** The cases of the source's table test, plus an oversized arc. */
  lemma ValidateExamples()
    ensures Validate([1, 2]) == None
    ensures Validate([1]) == Some(TooFewSubIdentifiers)
    ensures Validate([-1, 2]) == Some(NegativeSubIdentifier(1, -1))
    ensures Validate([3, 2]) == Some(FirstSubIdentifierOutOfRange(3))
    ensures Validate([1, 4294967296]) == Some(SubIdentifierTooLarge(2, 4294967296))
  {
  }
}
