/** The NaN-boxed 64-bit `Value` shared by the `waffle` VM
    (`vm/src/runtime/value.rs`) and the jlight VM
    (`jlight-vm/src/runtime/value.rs`, the same encoding): an `i32` carries
    `NUMBER_TAG` in the top bits, the immediates `null`, `undefined`, `true`
    and `false` carry `OTHER_TAG`, and a word with neither is a cell pointer.
    An `i32` is held as its 32 bits, as the source's transmute to `u32`
    does. */
module NanBox {
  const NUMBER_TAG: bv64 := 0xfffe_0000_0000_0000
  const OTHER_TAG: bv64 := 0x2
  const BOOL_TAG: bv64 := 0x4
  const UNDEFINED_TAG: bv64 := 0x8
  const VALUE_FALSE: bv64 := OTHER_TAG | BOOL_TAG
  const VALUE_TRUE: bv64 := OTHER_TAG | BOOL_TAG | 1
  const VALUE_UNDEFINED: bv64 := OTHER_TAG | UNDEFINED_TAG
  const VALUE_NULL: bv64 := OTHER_TAG
  /** The bits set in every immediate: a number or an "other" value. */
  const NOT_CELL_MASK: bv64 := NUMBER_TAG | OTHER_TAG
  const VALUE_EMPTY: bv64 := 0x0
  const LOW32: bv64 := 0xffff_ffff

  datatype VTag = Null | Undefined | True | False | Cell | EncodeAsDouble

  datatype Value = Value(raw: bv64)

  function Ordinal(t: VTag): bv64
  {
    match t
    case Null => 0
    case Undefined => 1
    case True => 2
    case False => 3
    case Cell => 4
    case EncodeAsDouble => 5
  }

  /** `Value::from(VTag)` as written: the tag's ordinal becomes the word. */
  function FromTag(t: VTag): Value
  {
    Value(Ordinal(t))
  }

  function Empty(): Value { Value(VALUE_EMPTY) }

  /** `new_int`: the 32 bits of the integer under `NUMBER_TAG`. */
  function NewInt(x: bv32): Value
  {
    Value(NUMBER_TAG | (x as bv64))
  }

  /** `as_int32`: the low 32 bits of the word. */
  function AsInt32(v: Value): bv32
  {
    (v.raw & LOW32) as bv32
  }

  predicate IsEmpty(v: Value) { v.raw == VALUE_EMPTY }
  predicate IsUndefined(v: Value) { v == FromTag(Undefined) }
  predicate IsNull(v: Value) { v == FromTag(Null) }
  predicate IsTrue(v: Value) { v == FromTag(True) }
  predicate IsFalse(v: Value) { v == FromTag(False) }
  predicate AsBool(v: Value) { v == FromTag(True) }

  /** `is_bool`: the word is `VALUE_FALSE` once the low bit is cleared. */
  predicate IsBool(v: Value) { v.raw & !1 == VALUE_FALSE }

  /** `is_null_or_undefined`: the word is `VALUE_NULL` once the
      `UNDEFINED_TAG` bit is cleared. */
  predicate IsNullOrUndefined(v: Value) { v.raw & !UNDEFINED_TAG == VALUE_NULL }

  /** `is_cell` as written: Rust's `!` on an integer is the bitwise
      complement, so this asks whether the complement of the masked word is
      non-zero. */
  predicate IsCell(v: Value) { !(v.raw & NOT_CELL_MASK) != 0 }

  predicate IsNumber(v: Value) { v.raw & NUMBER_TAG != 0 }
  predicate IsInt32(v: Value) { v.raw & NUMBER_TAG == NUMBER_TAG }
  predicate IsDouble(v: Value) { !IsInt32(v) && IsNumber(v) }

  /** `PartialEq for Value`: the raw words are compared. */
  predicate Eq(a: Value, b: Value) { a.raw == b.raw }

  lemma EqIsIdentity(a: Value, b: Value)
    ensures Eq(a, b) <==> a == b
  {
  }

  /** An `i32` comes back from `new_int` unchanged, as an `i32` number that
      is no double, no boolean and neither null nor undefined. */
  lemma NewIntRoundTrip(x: bv32)
    ensures AsInt32(NewInt(x)) == x
    ensures IsInt32(NewInt(x)) && IsNumber(NewInt(x)) && !IsDouble(NewInt(x))
    ensures !IsBool(NewInt(x)) && !IsNullOrUndefined(NewInt(x)) && !IsEmpty(NewInt(x))
  {
  }

  /** `empty()` is the zero word, and so is the `Null` tag: the empty value
      and null are the same value. */
  lemma EmptyIsNull()
    ensures IsEmpty(Empty()) && IsNull(Empty())
    ensures forall v :: IsEmpty(v) <==> IsNull(v)
  {
  }

  /** The words `is_bool` accepts are exactly `VALUE_FALSE` and
      `VALUE_TRUE`. */
  lemma IsBoolMeaning(v: Value)
    ensures IsBool(v) <==> v.raw == VALUE_FALSE || v.raw == VALUE_TRUE
  {
  }

  /** The words `is_null_or_undefined` accepts are exactly `VALUE_NULL` and
      `VALUE_UNDEFINED`. */
  lemma IsNullOrUndefinedMeaning(v: Value)
    ensures IsNullOrUndefined(v) <==> v.raw == VALUE_NULL || v.raw == VALUE_UNDEFINED
  {
  }

  /** Every `i32` is a number; a number is an `i32` or a double, never
      both. */
  lemma NumberKinds(v: Value)
    ensures IsInt32(v) ==> IsNumber(v)
    ensures IsNumber(v) <==> IsInt32(v) || IsDouble(v)
    ensures !(IsInt32(v) && IsDouble(v))
  {
  }

  // ---------------------------------------------------------------------------
  // `is_cell` as written holds of every word.

  lemma IsCellAlwaysHolds(v: Value)
    ensures IsCell(v)
  {
    assert (v.raw & NOT_CELL_MASK) & 1 == 0;
  }

  /** The counterexample: the integer 5 and `true` both pass for cells. */
  lemma IsCellAcceptsImmediates()
    ensures IsCell(NewInt(5)) && IsInt32(NewInt(5))
    ensures IsCell(Value(VALUE_TRUE)) && IsBool(Value(VALUE_TRUE))
  {
    IsCellAlwaysHolds(NewInt(5));
    IsCellAlwaysHolds(Value(VALUE_TRUE));
  }

  /** `is_cell` as evidently intended: none of the immediate bits is set. */
  predicate IsCellCorrected(v: Value) { v.raw & NOT_CELL_MASK == 0 }

  /** With the corrected test a cell is no number, no boolean, not null and
      not undefined, and each of those immediates is no cell. */
  lemma CellsAreNotImmediates(v: Value)
    ensures IsCellCorrected(v) ==> !IsNumber(v) && !IsBool(v) && !IsNullOrUndefined(v)
    ensures IsNumber(v) || IsBool(v) || IsNullOrUndefined(v) ==> !IsCellCorrected(v)
  {
    IsBoolMeaning(v);
    IsNullOrUndefinedMeaning(v);
  }

  // ---------------------------------------------------------------------------
  // `Value::from(VTag)` stores the ordinal, not the tag constants.

  /** The counterexample: the `True` tag becomes the word of `VALUE_NULL`,
      which `is_null_or_undefined` accepts and `is_bool` refuses. */
  lemma TrueTagReadsAsNull()
    ensures FromTag(True).raw == VALUE_NULL
    ensures IsNullOrUndefined(FromTag(True)) && !IsBool(FromTag(True))
    ensures !IsBool(FromTag(False))
  {
  }

  /** `Value::from(VTag)` as evidently intended: each immediate tag gets its
      `VALUE_*` constant; the other two tags keep their ordinal. */
  function FromTagCorrected(t: VTag): Value
  {
    match t
    case Null => Value(VALUE_NULL)
    case Undefined => Value(VALUE_UNDEFINED)
    case True => Value(VALUE_TRUE)
    case False => Value(VALUE_FALSE)
    case _ => Value(Ordinal(t))
  }

  predicate IsImmediateTag(t: VTag) { t in {Null, Undefined, True, False} }

  /** With the corrected encoding the immediates classify as their tags say:
      the booleans are booleans (and only `True` reads as true), null and
      undefined are null-or-undefined, none of them is a number, a cell or
      the empty value, and distinct tags give distinct values. */
  lemma CorrectedTagsClassify(t: VTag, u: VTag)
    requires IsImmediateTag(t) && IsImmediateTag(u)
    ensures IsBool(FromTagCorrected(t)) <==> t == True || t == False
    ensures IsNullOrUndefined(FromTagCorrected(t)) <==> t == Null || t == Undefined
    ensures FromTagCorrected(t) == FromTagCorrected(True) <==> t == True
    ensures !IsNumber(FromTagCorrected(t)) && !IsCellCorrected(FromTagCorrected(t))
    ensures !IsEmpty(FromTagCorrected(t))
    ensures FromTagCorrected(t) == FromTagCorrected(u) ==> t == u
  {
  }

  // ---------------------------------------------------------------------------
  // `try_convert_to_i52` and `is_any_int`

  const NOT_INT52: int := 0x10_0000_0000_0000
  const INT52_HALF: int := 0x8_0000_0000_0000

  /** The word `to_bits() as i64` reads from a binary64 number in the IEEE
      754 layout: one sign bit, which becomes the sign of the `i64`, an
      11-bit biased exponent and a 52-bit fraction. */
  function Bits(negative: bool, biasedExp: nat, fraction: nat): (r: int)
    requires biasedExp < 0x800 && fraction < 0x10_0000_0000_0000
    ensures -0x8000_0000_0000_0000 <= r < 0x8000_0000_0000_0000
    ensures negative <==> r < 0
  {
    (if negative then -0x8000_0000_0000_0000 else 0) + biasedExp * 0x10_0000_0000_0000 + fraction
  }

  /** Rust's `!` on an `i64`: the bitwise complement, `-x - 1` in two's
      complement, and not a test for zero. */
  function NotI64(x: int): (r: int)
    ensures r + x == -1
  {
    -x - 1
  }

  /** The source's `signbit!` macro: false for a number below zero and true
      otherwise, the opposite of the sign bit it is named after. */
  function SignBitMacro(lessThanZero: bool): (r: bool)
    ensures r != lessThanZero
  {
    !lessThanZero
  }

  /** `try_convert_to_i52` as written. The floating-point tests are given as
      flags: whether the number is NaN or infinite, whether `bits as f64`
      equals the number, and whether the number is below zero; `bits` is its
      `to_bits() as i64`, a reinterpretation of the number's word rather
      than its integer value. The sign test complements `bits` bitwise and
      uses the inverted macro, and the last two range checks compare
      against the same bound, `2^51`. */
  function TryConvertToI52(isNan: bool, isInfinite: bool, bits: int, bitsExact: bool, lessThanZero: bool): int
  {
    if isNan then NOT_INT52
    else if isInfinite then NOT_INT52
    else if !bitsExact then NOT_INT52
    else if NotI64(bits) != 0 && SignBitMacro(lessThanZero) then NOT_INT52
    else if bits >= INT52_HALF then NOT_INT52
    else if bits < INT52_HALF then NOT_INT52
    else bits
  }

  /** The two range checks together reject every input. */
  lemma TryConvertAlwaysRejects(isNan: bool, isInfinite: bool, bits: int, bitsExact: bool, lessThanZero: bool)
    ensures TryConvertToI52(isNan, isInfinite, bits, bitsExact, lessThanZero) == NOT_INT52
  {
  }

  /** The sign test as written fires for every number that is not below
      zero (save the word `-1`, which is a NaN pattern), rather than for a
      negative zero only. */
  lemma SignTestRejectsNonNegative(bits: int, lessThanZero: bool)
    ensures NotI64(bits) != 0 && SignBitMacro(lessThanZero) <==> bits != -1 && !lessThanZero
  {
  }

  /** Reading the word instead of the value: the only words in the 52-bit
      range belong to zero and the subnormals (sign clear, exponent zero) or
      to negative NaNs and minus infinity (sign set, exponent all ones,
      which the earlier checks reject), so even with the range corrected no
      number from 1.0 up could be accepted. 1.0 itself is the word
      `0x3FF0_0000_0000_0000`. */
  lemma ToBitsInRangeOnlyForTiny(negative: bool, biasedExp: nat, fraction: nat)
    requires biasedExp < 0x800 && fraction < 0x10_0000_0000_0000
    ensures -INT52_HALF <= Bits(negative, biasedExp, fraction) < INT52_HALF ==>
      (!negative && biasedExp == 0 && fraction < INT52_HALF) || (negative && biasedExp == 0x7FF)
    ensures Bits(false, 0x3FF, 0) == 0x3FF0_0000_0000_0000 >= INT52_HALF
  {
    if negative && biasedExp < 0x7FF {
      assert Bits(negative, biasedExp, fraction) < -0x8000_0000_0000_0000 + 0x7FF * 0x10_0000_0000_0000;
    } else if !negative && biasedExp != 0 {
      assert Bits(negative, biasedExp, fraction) >= 0x10_0000_0000_0000;
    }
  }

  /** As evidently intended (the conversion this one follows): `truncated`
      is the number's integer value, `number as i64`; `truncExact` says it
      converts back to the number; only a zero carrying the sign bit, a
      negative zero, is refused by the sign test; and the lower bound is
      `-2^51`. */
  function TryConvertToI52Corrected(isNan: bool, isInfinite: bool, truncated: int, truncExact: bool, signBit: bool): int
  {
    if isNan then NOT_INT52
    else if isInfinite then NOT_INT52
    else if !truncExact then NOT_INT52
    else if truncated == 0 && signBit then NOT_INT52
    else if truncated >= INT52_HALF then NOT_INT52
    else if truncated < -INT52_HALF then NOT_INT52
    else truncated
  }

  /** The corrected conversion accepts a finite number equal to its integer
      value exactly when that integer fits in 52 bits and the number is not
      a negative zero, and then returns the integer. */
  lemma TryConvertCorrectedAccepts(isNan: bool, isInfinite: bool, truncated: int, truncExact: bool, signBit: bool)
    ensures var r := TryConvertToI52Corrected(isNan, isInfinite, truncated, truncExact, signBit);
      (r != NOT_INT52 <==>
        !isNan && !isInfinite && truncExact && !(truncated == 0 && signBit) &&
        -INT52_HALF <= truncated < INT52_HALF) &&
      (r != NOT_INT52 ==> r == truncated)
  {
  }

  /** Of the exact, finite numbers in range, the corrected sign test refuses
      exactly the negative zero: 0.0 and -1.0 both pass. */
  lemma CorrectedSignTestRefusesOnlyNegativeZero(truncated: int, signBit: bool)
    requires -INT52_HALF <= truncated < INT52_HALF
    ensures TryConvertToI52Corrected(false, false, truncated, true, signBit) == NOT_INT52 <==>
      truncated == 0 && signBit
    ensures TryConvertToI52Corrected(false, false, 0, true, false) == 0
    ensures TryConvertToI52Corrected(false, false, -1, true, true) == -1
  {
  }

  /** `is_any_int`: an `i32` is an integer, a non-number is not, and a double
      is one when it converts to 52 bits (`int52` holds the conversion's
      verdict on the double, which the model does not compute). */
  function IsAnyInt(v: Value, int52: bool): (r: bool)
    ensures IsInt32(v) ==> r
    ensures !IsNumber(v) ==> !r
    ensures IsDouble(v) ==> (r <==> int52)
  {
    if IsInt32(v) then true
    else if !IsNumber(v) then false
    else int52
  }

  /** With the conversion as written a double is never an integer, so
      `is_any_int` holds of exactly the `i32` values. */
  lemma AnyIntIsInt32AsWritten(v: Value, isNan: bool, isInfinite: bool, bits: int, bitsExact: bool, lessThanZero: bool)
    ensures IsAnyInt(v, TryConvertToI52(isNan, isInfinite, bits, bitsExact, lessThanZero) != NOT_INT52) <==> IsInt32(v)
  {
    TryConvertAlwaysRejects(isNan, isInfinite, bits, bitsExact, lessThanZero);
  }
}
