/** `Chunk` (`src/chunk.rs`): a fixed number of values in one allocation,
    zeroed when created and on `reset`, indexed without bounds checks. The
    allocation is an array; a chunk of capacity 0 holds the null pointer. */
module Chunks {
  class Chunk {
    const data: array<nat>

    /** The pointer is null exactly for a chunk of capacity 0. */
    predicate IsNull()
    {
      data.Length == 0
    }

    /** `len`: the capacity. */
    function Len(): nat
    {
      data.Length
    }

    /** `Chunk::new(capacity)`: `capacity` zeroed values; capacity 0 gives
        the null chunk. */
    constructor (capacity: nat)
      ensures Len() == capacity && (IsNull() <==> capacity == 0)
      ensures fresh(data) && data[..] == seq(capacity, _ => 0)
    {
      data := new nat[capacity];
      new;
      Reset();
    }

    /** `reset`: every value becomes zero; the null chunk is left alone. */
    method Reset()
      modifies data
      ensures data[..] == seq(data.Length, _ => 0)
    {
      if !IsNull() {
        for i := 0 to data.Length
          invariant forall j :: 0 <= j < i ==> data[j] == 0
        {
          data[i] := 0;
        }
      }
    }

    /** `index`: the value at `offset`, which must be below the length. */
    function At(offset: nat): nat
      requires offset < Len()
      reads data
    {
      data[offset]
    }

    /** `index_mut`: writes the value at `offset`; the others keep theirs. */
    method Put(offset: nat, v: nat)
      requires offset < Len()
      modifies data
      ensures data[..] == old(data[..])[offset := v]
      ensures At(offset) == v
    {
      data[offset] := v;
    }
  }
}
