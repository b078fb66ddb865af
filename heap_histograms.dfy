/** Histograms (`src/heap/histograms.rs`): per-bin counters over a zeroed
    chunk, one of available lines per hole count and one of marked lines
    per hole count, used to find fragmented blocks. */
module HeapHistograms {
  import Chunks

  /** Bins 0 and 1 describe blocks that are not fragmented. */
  const MINIMUM_BIN: nat := 2

  class Histogram {
    const values: Chunks.Chunk

    /** The bins. */
    function Bins(): seq<nat>
      reads values.data
    {
      values.data[..]
    }

    /** `Histogram::new(capacity)`: `capacity` bins, all zero. */
    constructor (capacity: nat)
      ensures Bins() == seq(capacity, _ => 0)
      ensures fresh(values) && fresh(values.data)
    {
      values := new Chunks.Chunk(capacity);
    }

    /** `increment(index, value)`: bin `index` grows by `value`; every other
        bin keeps its count. */
    method Increment(index: nat, value: nat)
      requires index < |Bins()|
      modifies values.data
      ensures |Bins()| == |old(Bins())|
      ensures Bins()[index] == old(Bins())[index] + value
      ensures forall i :: 0 <= i < |Bins()| && i != index ==> Bins()[i] == old(Bins())[i]
    {
      values.Put(index, values.At(index) + value);
    }

    /** `get(index)`: bin `index`, which must exist. */
    function Get(index: nat): (r: nat)
      requires index < |Bins()|
      reads values.data
      ensures r == Bins()[index]
    {
      values.At(index)
    }

    /** `reset`: every bin is zero again and the number of bins is kept. */
    method Reset()
      modifies values.data
      ensures Bins() == seq(|old(Bins())|, _ => 0)
    {
      values.Reset();
    }
  }

  class Histograms {
    const available: Histogram
    const marked: Histogram

    /** The two histograms use separate storage. */
    predicate Valid()
    {
      available.values.data != marked.values.data
    }

    /** `Histograms::new`: `MAX_HOLES + 1` available bins and
        `LINES_PER_BLOCK + 1` marked bins, all zero. Both constants belong
        to `src/heap/block.rs`, so they are parameters here. */
    constructor (maxHoles: nat, linesPerBlock: nat)
      ensures Valid()
      ensures available.Bins() == seq(maxHoles + 1, _ => 0)
      ensures marked.Bins() == seq(linesPerBlock + 1, _ => 0)
      ensures fresh(available.values.data) && fresh(marked.values.data)
    {
      available := new Histogram(maxHoles + 1);
      marked := new Histogram(linesPerBlock + 1);
    }

    /** `Histograms::reset`: both histograms are zeroed. */
    method Reset()
      requires Valid()
      modifies available.values.data, marked.values.data
      ensures available.Bins() == seq(|old(available.Bins())|, _ => 0)
      ensures marked.Bins() == seq(|old(marked.Bins())|, _ => 0)
    {
      available.Reset();
      marked.Reset();
    }
  }
}
