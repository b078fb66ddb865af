/** The payload of a heap object in the `jlightc` VM (`src/object_value.rs`)
    and its classification: one test, one accessor and one name per variant.
    Numbers are kept as the bits of their `f64`; files, big integers,
    processes, hashers and modules by an opaque handle. */
module JlightcObjectValue {
  import opened Wrappers
  import opened Ints

  datatype FunctionValue = FunctionValue(name: string, upvalues: seq<nat>, block: u16, native: bool)

  datatype ObjectValue =
    | None
    | Number(bits: u64)
    | Bool(b: bool)
    | String(s: string)
    | File(fd: nat)
    | Array(elems: seq<nat>)
    | ByteArray(bytes: seq<u8>)
    | BigInt(big: int)
    | Function(f: FunctionValue)
    | Process(pid: nat)
    | Hasher(hasher: nat)
    | Module(module_: nat)

  predicate IsNone(v: ObjectValue) { v.None? }
  predicate IsSome(v: ObjectValue) { !IsNone(v) }
  predicate IsNumber(v: ObjectValue) { v.Number? }
  predicate IsFunction(v: ObjectValue) { v.Function? }
  predicate IsArray(v: ObjectValue) { v.Array? }
  predicate IsString(v: ObjectValue) { v.String? }
  predicate IsFile(v: ObjectValue) { v.File? }
  predicate IsBigint(v: ObjectValue) { v.BigInt? }
  predicate IsProcess(v: ObjectValue) { v.Process? }

  /** The error messages of the accessors. */
  const NOT_A_NUMBER: string := "as_float called non a non float value"
  const NOT_A_FUNCTION: string := "as_function called non a non function value"
  const NOT_AN_ARRAY: string := "as_array called non a non array value"
  const NOT_A_BYTE_ARRAY: string := "as_byte_array called non a non byte array value"
  const NOT_A_STRING: string := "ObjectValue::as_string() called on a non string"
  const NOT_A_FILE: string := "ObjectValue::as_file() called on a non file"
  const NOT_A_BIGINT: string := "ObjectValue::as_bigint() called on a non BigInt"
  const NOT_A_PROCESS: string := "ObjectValue::as_process() called on a non Process"

  /** `as_number`, `as_function`, `as_array`, …: the payload of the matching
      variant, an error naming the accessor for any other. */
  function AsNumber(v: ObjectValue): Result<u64>
  {
    if v.Number? then Success(v.bits) else Failure(NOT_A_NUMBER)
  }

  function AsFunction(v: ObjectValue): Result<FunctionValue>
  {
    if v.Function? then Success(v.f) else Failure(NOT_A_FUNCTION)
  }

  function AsArray(v: ObjectValue): Result<seq<nat>>
  {
    if v.Array? then Success(v.elems) else Failure(NOT_AN_ARRAY)
  }

  function AsByteArray(v: ObjectValue): Result<seq<u8>>
  {
    if v.ByteArray? then Success(v.bytes) else Failure(NOT_A_BYTE_ARRAY)
  }

  function AsString(v: ObjectValue): Result<string>
  {
    if v.String? then Success(v.s) else Failure(NOT_A_STRING)
  }

  function AsFile(v: ObjectValue): Result<nat>
  {
    if v.File? then Success(v.fd) else Failure(NOT_A_FILE)
  }

  function AsBigint(v: ObjectValue): Result<int>
  {
    if v.BigInt? then Success(v.big) else Failure(NOT_A_BIGINT)
  }

  function AsProcess(v: ObjectValue): Result<nat>
  {
    if v.Process? then Success(v.pid) else Failure(NOT_A_PROCESS)
  }

  /** `should_deallocate_native`. */
  predicate ShouldDeallocateNative(v: ObjectValue) { !v.None? }

  /** `is_immutable`. */
  predicate IsImmutable(v: ObjectValue) { v.Number? || v.String? || v.BigInt? }

  /** `name`: the type name shown to programs. */
  function Name(v: ObjectValue): string
  {
    match v
    case None => "Object"
    case Number(_) => "Number"
    case String(_) => "String"
    case Array(_) => "Array"
    case File(_) => "File"
    case BigInt(_) => "BigInteger"
    case Bool(_) => "Boolean"
    case ByteArray(_) => "ByteArray"
    case Function(_) => "Function"
    case Process(_) => "Process"
    case Hasher(_) => "Hasher"
    case Module(_) => "Module"
  }

  /** Which variant a value is, as a number; two values have the same kind
      exactly when they are built by the same constructor. */
  function Kind(v: ObjectValue): nat
  {
    match v
    case None => 0
    case Number(_) => 1
    case Bool(_) => 2
    case String(_) => 3
    case File(_) => 4
    case Array(_) => 5
    case ByteArray(_) => 6
    case BigInt(_) => 7
    case Function(_) => 8
    case Process(_) => 9
    case Hasher(_) => 10
    case Module(_) => 11
  }

  /** Reads a type name back to the kind it names. */
  function KindOfName(name: string): nat
  {
    if name == "Object" then 0
    else if name == "Number" then 1
    else if name == "Boolean" then 2
    else if name == "String" then 3
    else if name == "File" then 4
    else if name == "Array" then 5
    else if name == "ByteArray" then 6
    else if name == "BigInteger" then 7
    else if name == "Function" then 8
    else if name == "Process" then 9
    else if name == "Hasher" then 10
    else 11
  }

  lemma NameRoundTrip(v: ObjectValue)
    ensures KindOfName(Name(v)) == Kind(v)
  {
  }

  /** The name tells the variant: two values share a name exactly when
      they are of the same kind. */
  lemma NameDeterminesKind(a: ObjectValue, b: ObjectValue)
    ensures Name(a) == Name(b) <==> Kind(a) == Kind(b)
  {
    NameRoundTrip(a);
    NameRoundTrip(b);
  }

  /** Each accessor succeeds exactly on its own variant, and then returns
      that variant's payload, so that putting the payload back rebuilds the
      value. */
  lemma AccessorsMatchTests(v: ObjectValue)
    ensures AsNumber(v).Success? <==> IsNumber(v)
    ensures AsFunction(v).Success? <==> IsFunction(v)
    ensures AsArray(v).Success? <==> IsArray(v)
    ensures AsByteArray(v).Success? <==> v.ByteArray?
    ensures AsString(v).Success? <==> IsString(v)
    ensures AsFile(v).Success? <==> IsFile(v)
    ensures AsBigint(v).Success? <==> IsBigint(v)
    ensures AsProcess(v).Success? <==> IsProcess(v)
  {
  }

  lemma AccessorsReturnPayload(v: ObjectValue)
    ensures AsNumber(v).Success? ==> Number(AsNumber(v).value) == v
    ensures AsString(v).Success? ==> String(AsString(v).value) == v
    ensures AsArray(v).Success? ==> Array(AsArray(v).value) == v
    ensures AsFunction(v).Success? ==> Function(AsFunction(v).value) == v
  {
  }

  /** The immutable values are the numbers, strings and big integers, and
      every value but `None` owns native data. */
  lemma Classification(v: ObjectValue)
    ensures IsSome(v) <==> !IsNone(v)
    ensures IsImmutable(v) <==> Name(v) in {"Number", "String", "BigInteger"}
    ensures ShouldDeallocateNative(v) <==> Name(v) != "Object"
  {
    if Name(v) in {"Number", "String", "BigInteger"} || Name(v) == "Object" {
      NameDeterminesKind(v, Number(0));
      NameDeterminesKind(v, String(""));
      NameDeterminesKind(v, BigInt(0));
      NameDeterminesKind(v, ObjectValue.None);
    }
  }

  /** A value cell that `take` empties: the old value moves out and `None`
      stays behind. */
  class ValueSlot {
    var value: ObjectValue

    constructor (v: ObjectValue)
      ensures value == v
    {
      value := v;
    }

    method Take() returns (v: ObjectValue)
      modifies this
      ensures v == old(value) && value == ObjectValue.None && !ShouldDeallocateNative(value)
    {
      v := value;
      value := ObjectValue.None;
    }
  }
}
