/** The hasher object of the `jlightc` VM (`src/hasher.rs`). The keyed hash
    function itself is foreign; the model passes it in as `finish`, a
    function of the keys and of everything written since the last reset, and
    models exactly the conversion of its `u64` into an `i64`. */
module JlightcHasher {
  import opened Ints

  /** `U64_I64_DIFF`: `u64::MAX - i64::MAX`, that is 2^63. */
  const U64_I64_DIFF: int := (TWO_64 - 1) - I64_MAX

  /** `convert_hash`: words above `i64::MAX` drop by `U64_I64_DIFF`, the rest
      by one less. */
  function ConvertHash(raw: u64): int
  {
    if raw > I64_MAX then raw - U64_I64_DIFF
    else raw - (U64_I64_DIFF - 1)
  }

  /** The result always fits an `i64` (and never reaches `i64::MIN`), so
      neither subtraction overflows; the conversion never decreases, and the
      two words around the middle both map to 0. */
  lemma ConvertHashRange(raw: u64, other: u64)
    ensures -I64_MAX <= ConvertHash(raw) <= I64_MAX
    ensures raw <= other ==> ConvertHash(raw) <= ConvertHash(other)
    ensures ConvertHash(I64_MAX) == 0 && ConvertHash(I64_MAX + 1) == 0
  {
  }

  /** The values of `test_convert_hash`. */
  lemma ConvertHashTestValues()
    ensures ConvertHash(TWO_64 - 1) == 9223372036854775807
    ensures ConvertHash(I64_MAX) == 0
    ensures ConvertHash(0) == -9223372036854775807
    ensures ConvertHash(1) == -9223372036854775806
    ensures ConvertHash(2) == -9223372036854775805
  {
  }

  /** What may be written into a hasher. */
  datatype Input = Integer(i: int) | Unsigned(u: nat) | BigInt(b: int) | Str(s: string)

  class Hasher {
    const key0: u64
    const key1: u64
    /** Everything written since creation or the last reset. */
    var written: seq<Input>

    constructor (key0: u64, key1: u64)
      ensures this.key0 == key0 && this.key1 == key1 && written == []
    {
      this.key0 := key0;
      this.key1 := key1;
      written := [];
    }

    method WriteInteger(v: int)
      modifies this
      ensures written == old(written) + [Integer(v)]
    {
      written := written + [Integer(v)];
    }

    method WriteUnsignedInteger(v: nat)
      modifies this
      ensures written == old(written) + [Unsigned(v)]
    {
      written := written + [Unsigned(v)];
    }

    /** `write_float`: the float's bits, converted, are written as an
        integer. */
    method WriteFloat(bits: u64)
      modifies this
      ensures written == old(written) + [Integer(ConvertHash(bits))]
    {
      WriteInteger(ConvertHash(bits));
    }

    method WriteBigint(v: int)
      modifies this
      ensures written == old(written) + [BigInt(v)]
    {
      written := written + [BigInt(v)];
    }

    method WriteString(s: string)
      modifies this
      ensures written == old(written) + [Str(s)]
    {
      written := written + [Str(s)];
    }

    /** `to_hash`: the converted hash of everything written. */
    method ToHash(finish: (u64, u64, seq<Input>) -> u64) returns (h: int)
      ensures h == ConvertHash(finish(key0, key1, written))
      ensures -I64_MAX <= h <= I64_MAX
    {
      ConvertHashRange(finish(key0, key1, written), 0);
      h := ConvertHash(finish(key0, key1, written));
    }

    /** `reset`: a fresh hasher with the same keys. */
    method Reset()
      modifies this
      ensures written == []
    {
      written := [];
    }
  }

  /** The scenario of `test_write_float`, `test_write_string` and
      `test_finish`: hashing, resetting and hashing the same input again
      gives the same hash, the keyed hash of that one input, because a reset
      forgets everything written before. */
  method HashTwice(hasher: Hasher, item: Input, finish: (u64, u64, seq<Input>) -> u64)
    returns (h1: int, h2: int)
    modifies hasher
    ensures h1 == h2
    ensures h1 == ConvertHash(finish(hasher.key0, hasher.key1, [item]))
    ensures hasher.written == [item]
  {
    hasher.Reset();
    match item {
      case Integer(i) => hasher.WriteInteger(i);
      case Unsigned(u) => hasher.WriteUnsignedInteger(u);
      case BigInt(b) => hasher.WriteBigint(b);
      case Str(s) => hasher.WriteString(s);
    }
    assert hasher.written == [item];
    h1 := hasher.ToHash(finish);
    hasher.Reset();
    match item {
      case Integer(i) => hasher.WriteInteger(i);
      case Unsigned(u) => hasher.WriteUnsignedInteger(u);
      case BigInt(b) => hasher.WriteBigint(b);
      case Str(s) => hasher.WriteString(s);
    }
    assert hasher.written == [item];
    h2 := hasher.ToHash(finish);
  }
}
