/** Type feedback of arithmetic instructions in the `waffle` VM
    (`vm/src/bytecode/arithprofile.rs`): an `ObservedType` is a byte of
    flags (`INT32`, `NUMBER`, `NON_NUMBER`), and an `ArithProfile` keeps the
    observed results in the low bits of a 16-bit word. */
module ArithProfile {
  const EMPTY: bv8 := 0x0
  const INT32: bv8 := 0x1
  const NUMBER: bv8 := 0x2
  const NON_NUMBER: bv8 := 0x4

  datatype ObservedType = ObservedType(bits: bv8)

  function Empty(): ObservedType { ObservedType(EMPTY) }

  predicate SawInt32(t: ObservedType) { t.bits & INT32 != 0 }
  predicate IsOnlyInt32(t: ObservedType) { t.bits == INT32 }
  predicate SawNumber(t: ObservedType) { t.bits & NUMBER != 0 }
  predicate IsOnlyNumber(t: ObservedType) { t.bits == NUMBER }
  predicate SawNonNumber(t: ObservedType) { t.bits & NON_NUMBER != 0 }

  function WithInt32(t: ObservedType): ObservedType { ObservedType(t.bits | INT32) }
  function WithNumber(t: ObservedType): ObservedType { ObservedType(t.bits | NUMBER) }
  function WithNonNumber(t: ObservedType): ObservedType { ObservedType(t.bits | NON_NUMBER) }

  /** Each `with_*` sets its own flag and keeps every other bit. */
  lemma WithSetsOwnBit(t: ObservedType)
    ensures SawInt32(WithInt32(t)) && WithInt32(t).bits & !INT32 == t.bits & !INT32
    ensures SawNumber(WithNumber(t)) && WithNumber(t).bits & !NUMBER == t.bits & !NUMBER
    ensures SawNonNumber(WithNonNumber(t)) && WithNonNumber(t).bits & !NON_NUMBER == t.bits & !NON_NUMBER
  {
  }

  /** A type that saw only `i32` values saw `i32` and no number; one that
      saw only numbers saw numbers and no `i32`. */
  lemma OnlyMeansSaw(t: ObservedType)
    ensures IsOnlyInt32(t) ==> SawInt32(t) && !SawNumber(t) && !SawNonNumber(t)
    ensures IsOnlyNumber(t) ==> SawNumber(t) && !SawInt32(t) && !SawNonNumber(t)
    ensures IsOnlyInt32(WithInt32(Empty())) && IsOnlyNumber(WithNumber(Empty()))
  {
  }

  // ---------------------------------------------------------------------------
  // `is_empty`

  /** `is_empty` as written: the complement of the bits is zero, which
      holds of `0xFF` only. */
  predicate IsEmpty(t: ObservedType) { !t.bits == 0 }

  /** The counterexample: the empty type is not empty, and the type with
      every flag set is. */
  lemma IsEmptyAsWritten(t: ObservedType)
    ensures IsEmpty(t) <==> t.bits == 0xFF
    ensures !IsEmpty(Empty())
    ensures IsEmpty(WithNonNumber(WithNumber(WithInt32(ObservedType(0xF8)))))
  {
  }

  /** `is_empty` as evidently intended: no flag has been seen. */
  predicate IsEmptyCorrected(t: ObservedType) { t.bits == EMPTY }

  lemma IsEmptyCorrectedMeaning(t: ObservedType)
    ensures IsEmptyCorrected(Empty())
    ensures IsEmptyCorrected(t) ==> !SawInt32(t) && !SawNumber(t) && !SawNonNumber(t)
    ensures !IsEmptyCorrected(WithInt32(t)) && !IsEmptyCorrected(WithNumber(t))
    ensures !IsEmptyCorrected(WithNonNumber(t))
  {
  }

  // ---------------------------------------------------------------------------
  // `without_non_number`

  /** `without_non_number` as written: it ORs in the complement of
      `NON_NUMBER`. */
  function WithoutNonNumber(t: ObservedType): ObservedType
  {
    ObservedType(t.bits | !NON_NUMBER)
  }

  /** As written it sets every other bit and leaves `NON_NUMBER` as it was:
      a type that saw a non-number still has it afterwards, and has gained
      `INT32` and `NUMBER`. */
  lemma WithoutNonNumberAsWritten(t: ObservedType)
    ensures WithoutNonNumber(t).bits & NON_NUMBER == t.bits & NON_NUMBER
    ensures WithoutNonNumber(t).bits | NON_NUMBER == 0xFF
    ensures SawNonNumber(WithoutNonNumber(WithNonNumber(Empty())))
    ensures SawInt32(WithoutNonNumber(Empty())) && SawNumber(WithoutNonNumber(Empty()))
  {
  }

  /** As evidently intended: `NON_NUMBER` is cleared and the rest kept. */
  function WithoutNonNumberCorrected(t: ObservedType): ObservedType
  {
    ObservedType(t.bits & !NON_NUMBER)
  }

  /** The corrected version undoes `with_non_number` on a type that had not
      seen a non-number, and never leaves the flag set. */
  lemma WithoutNonNumberCorrectedUndoes(t: ObservedType)
    ensures !SawNonNumber(WithoutNonNumberCorrected(t))
    ensures WithoutNonNumberCorrected(t).bits & !NON_NUMBER == t.bits & !NON_NUMBER
    ensures !SawNonNumber(t) ==> WithoutNonNumberCorrected(WithNonNumber(t)) == t
  {
  }

  // ---------------------------------------------------------------------------
  // Observed results

  const NON_NEG_ZERO_DOUBLE: bv16 := 1
  const NEG_ZERO_DOUBLE: bv16 := 2
  const NON_NUMERIC: bv16 := 4
  const INT32_OVERFLOW: bv16 := 8
  const INT52_OVERFLOW: bv16 := 16
  const BIGINT: bv16 := 32
  const RESULTS_BITS_NEEDED: nat := 6

  datatype ArithProfileType = Binary | Unary

  datatype Profile = Profile(ty: ArithProfileType, bits: bv16)

  /** `observed_results`: the low `RESULTS_BITS_NEEDED` bits. */
  function ObservedResults(p: Profile): bv16
  {
    p.bits & ((1 << RESULTS_BITS_NEEDED) - 1)
  }

  /** The observed results keep exactly the six result flags of the
      profile's word, and nothing above them. */
  lemma ObservedResultsAreTheFlags(p: Profile)
    ensures ObservedResults(p) < 64
    ensures ObservedResults(p) == p.bits & (NON_NEG_ZERO_DOUBLE | NEG_ZERO_DOUBLE | NON_NUMERIC |
      INT32_OVERFLOW | INT52_OVERFLOW | BIGINT)
    ensures p.bits < 64 ==> ObservedResults(p) == p.bits
  {
  }
}
