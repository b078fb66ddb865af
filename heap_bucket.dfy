/** Buckets (`src/heap/bucket.rs`): the blocks of one age of objects, with
    the block allocation currently goes into. Before a collection a bucket
    finds its most fragmented blocks from the histograms; after one it
    hands its empty blocks back to the global pool. */
module HeapBucket {
  import opened Wrappers
  import opened HeapBlockList
  import opened HeapHistograms
  import opened HeapGlobalAllocator

  /** The age of a bucket of mature objects. */
  const MATURE: int := 125
  /** The age of a bucket of mailbox objects. */
  const MAILBOX: int := 126
  /** The age of a bucket of permanent objects. */
  const PERMANENT: int := 127
  /** Ages are `i8`. */
  const AGE_MIN: int := -128
  const AGE_MAX: int := 127

  // ---------------------------------------------------------------------------
  // Reclaiming

  /** The blocks `reclaim_blocks` keeps: those with a line in use, in order. */
  function Kept(s: seq<Block>): (r: seq<Block>)
    ensures |r| <= |s|
    ensures forall b :: b in r ==> b in s && !b.empty
  {
    if s == [] then []
    else
      var last := s[|s| - 1];
      Kept(s[..|s| - 1]) + if last.empty then [] else [last]
  }

  /** The blocks `reclaim_blocks` releases: the empty ones, in order. */
  function Released(s: seq<Block>): (r: seq<Block>)
    ensures |r| <= |s|
    ensures forall b :: b in r ==> b in s && b.empty
  {
    if s == [] then []
    else
      var last := s[|s| - 1];
      Released(s[..|s| - 1]) + if last.empty then [last] else []
  }

  /** Every block is kept or released, and none is both. */
  lemma {:induction false} KeptReleasedPartition(s: seq<Block>)
    ensures multiset(Kept(s)) + multiset(Released(s)) == multiset(s)
    decreases |s|
  {
    if s != [] {
      KeptReleasedPartition(s[..|s| - 1]);
      assert s == s[..|s| - 1] + [s[|s| - 1]];
    }
  }

  lemma KeptSnoc(s: seq<Block>, b: Block)
    ensures Kept(s + [b]) == Kept(s) + if b.empty then [] else [b]
    ensures Released(s + [b]) == Released(s) + if b.empty then [b] else []
  {
    assert (s + [b])[..|s|] == s;
  }

  /** The facts one step of the `reclaim_blocks` loop needs: the next
      drained block is in neither list yet, the two lists share no block,
      and both come from the drained blocks. */
  lemma SortStep(drained: seq<Block>, i: nat)
    requires Distinct(drained) && i < |drained|
    ensures var k, r := Kept(drained[..i]), Released(drained[..i]);
      drained[i] !in k && drained[i] !in r && Elements(k) !! Elements(r) &&
      Elements(k) <= Elements(drained) && Elements(r) <= Elements(drained)
    ensures Kept(drained[..i + 1]) == Kept(drained[..i]) + if drained[i].empty then [] else [drained[i]]
    ensures Released(drained[..i + 1]) == Released(drained[..i]) + if drained[i].empty then [drained[i]] else []
  {
    KeptSnoc(drained[..i], drained[i]);
    assert drained[..i + 1] == drained[..i] + [drained[i]];
    assert drained[i] !in drained[..i];
  }

  /** Pushing onto one of two lists with no block in common leaves the
      other list as it was. */
  method PushBeside(into: BlockList, other: BlockList, b: Block)
    requires into.Valid() && other.Valid() && into != other
    requires b !in into.blocks && b !in other.blocks
    requires Elements(into.blocks) !! Elements(other.blocks)
    modifies into, into.Tail()`next
    ensures into.blocks == old(into.blocks) + [b] && into.Valid()
    ensures other.blocks == old(other.blocks) && other.Valid()
  {
    ghost var o := other.blocks;
    assert forall i :: 0 <= i < |o| ==> o[i] !in Elements(into.blocks);
    assert Linked(o);
    into.Push(b);
    assert forall i :: 0 <= i < |o| - 1 ==> o[i].next == o[i + 1];
  }

  // ---------------------------------------------------------------------------
  // Fragmentation statistics

  /** Whether `prepare_for_collection` counts a block's available lines. */
  predicate Counted(b: Block, evacuate: bool)
  {
    evacuate && b.holes >= MINIMUM_BIN
  }

  /** The available lines `prepare_for_collection` counts over `s`. */
  function AvailableLines(s: seq<Block>, evacuate: bool): (n: nat)
    ensures !evacuate ==> n == 0
  {
    if s == [] then 0
    else
      var last := s[|s| - 1];
      AvailableLines(s[..|s| - 1], evacuate) + if Counted(last, evacuate) then last.availableLines else 0
  }

  /** The available-lines histogram after the blocks of `s` are counted:
      each counted block adds its available lines to the bin of its hole
      count. */
  function AddAvailable(h: seq<nat>, s: seq<Block>, evacuate: bool): (r: seq<nat>)
    requires forall i :: 0 <= i < |s| && Counted(s[i], evacuate) ==> s[i].holes < |h|
    ensures |r| == |h|
  {
    if s == [] then h
    else
      var last := s[|s| - 1];
      var prev := AddAvailable(h, s[..|s| - 1], evacuate);
      if Counted(last, evacuate) then prev[last.holes := prev[last.holes] + last.availableLines] else prev
  }

  /** The sum of all bins. */
  function Total(h: seq<nat>): nat
  {
    if h == [] then 0 else Total(h[..|h| - 1]) + h[|h| - 1]
  }

  lemma {:induction false} TotalUpdate(h: seq<nat>, i: nat, v: nat)
    requires i < |h|
    ensures Total(h[i := h[i] + v]) == Total(h) + v
    decreases |h|
  {
    var g := h[i := h[i] + v];
    assert g[..|g| - 1] == if i == |h| - 1 then h[..|h| - 1] else h[..|h| - 1][i := h[i] + v];
    if i < |h| - 1 {
      TotalUpdate(h[..|h| - 1], i, v);
    }
  }

  /** Counting blocks into the histogram grows its total by exactly the
      available lines counted. */
  lemma {:induction false} AddAvailableTotal(h: seq<nat>, s: seq<Block>, evacuate: bool)
    requires forall i :: 0 <= i < |s| && Counted(s[i], evacuate) ==> s[i].holes < |h|
    ensures Total(AddAvailable(h, s, evacuate)) == Total(h) + AvailableLines(s, evacuate)
    decreases |s|
  {
    if s != [] {
      var last := s[|s| - 1];
      AddAvailableTotal(h, s[..|s| - 1], evacuate);
      if Counted(last, evacuate) {
        TotalUpdate(AddAvailable(h, s[..|s| - 1], evacuate), last.holes, last.availableLines);
      }
    }
  }

  lemma AddAvailableSnoc(h: seq<nat>, s: seq<Block>, b: Block, evacuate: bool)
    requires forall i :: 0 <= i < |s| && Counted(s[i], evacuate) ==> s[i].holes < |h|
    requires Counted(b, evacuate) ==> b.holes < |h|
    ensures AddAvailable(h, s + [b], evacuate) ==
      var prev := AddAvailable(h, s, evacuate);
      if Counted(b, evacuate) then prev[b.holes := prev[b.holes] + b.availableLines] else prev
    ensures AvailableLines(s + [b], evacuate) ==
      AvailableLines(s, evacuate) + if Counted(b, evacuate) then b.availableLines else 0
  {
    assert (s + [b])[..|s|] == s;
  }

  /** `bins[lo] + ... + bins[hi - 1]`. */
  function Sum(bins: seq<nat>, lo: nat, hi: nat): nat
    requires lo <= hi <= |bins|
    decreases hi - lo
  {
    if lo == hi then 0 else bins[lo] + Sum(bins, lo + 1, hi)
  }

  /** The bin search of `prepare_for_collection`, from bin `bin` downwards:
      while more lines are available than required and the bin is at least
      `MINIMUM_BIN`, the bin's marked lines become required, its available
      lines stop counting, and it becomes the minimum bin. */
  function Scan(available: int, required: int, bin: nat, minBin: nat,
                marked: seq<nat>, avail: seq<nat>): nat
    requires bin < |marked| && bin < |avail|
    decreases bin
  {
    if available > required && bin >= MINIMUM_BIN then
      Scan(available - avail[bin], required + marked[bin], bin - 1, bin, marked, avail)
    else minBin
  }

  /** Whether the search goes on below bin `b`, once bins `b` to `top` are
      taken: the lines available in lower bins still exceed the marked
      lines of bins `b` to `top`. */
  predicate GoesOn(available: int, b: nat, top: nat, marked: seq<nat>, avail: seq<nat>)
    requires b <= top + 1 <= |marked| && top + 1 <= |avail|
  {
    available - Sum(avail, b, top + 1) > Sum(marked, b, top + 1)
  }

  /** The minimum bin the search settles on, stated without the loop: it
      is 0 when the search never starts; otherwise it is at least
      `MINIMUM_BIN` and at most the top bin, the search went on past every
      bin above it, and it stopped there because the required lines caught
      up or `MINIMUM_BIN` was reached. */
  lemma ScanMeaning(available: int, top: nat, marked: seq<nat>, avail: seq<nat>)
    requires top < |marked| && top < |avail|
    ensures var r := Scan(available, 0, top, 0, marked, avail);
      (r == 0 <==> !(available > 0 && top >= MINIMUM_BIN)) &&
      (r != 0 ==>
        MINIMUM_BIN <= r <= top &&
        (forall c :: r < c <= top + 1 ==> GoesOn(available, c, top, marked, avail)) &&
        (r == MINIMUM_BIN || !GoesOn(available, r, top, marked, avail)))
  {
    ScanFrom(available, top, top, 0, marked, avail);
  }

  lemma {:induction false} ScanFrom(available: int, top: nat, bin: nat, minBin: nat,
                                    marked: seq<nat>, avail: seq<nat>)
    requires top < |marked| && top < |avail| && bin <= top
    requires minBin == 0 <==> bin == top
    requires minBin != 0 ==> minBin == bin + 1 && bin + 1 >= MINIMUM_BIN
    requires forall c :: bin + 1 < c <= top + 1 ==> GoesOn(available, c, top, marked, avail)
    ensures var r := Scan(available - Sum(avail, bin + 1, top + 1), Sum(marked, bin + 1, top + 1),
                          bin, minBin, marked, avail);
      (r == 0 <==> !(GoesOn(available, top + 1, top, marked, avail) && top >= MINIMUM_BIN)) &&
      (r != 0 ==>
        MINIMUM_BIN <= r <= top &&
        (forall c :: r < c <= top + 1 ==> GoesOn(available, c, top, marked, avail)) &&
        (r == MINIMUM_BIN || !GoesOn(available, r, top, marked, avail)))
    decreases bin
  {
    var a := available - Sum(avail, bin + 1, top + 1);
    var q := Sum(marked, bin + 1, top + 1);
    assert GoesOn(available, bin + 1, top, marked, avail) <==> a > q;
    if a > q && bin >= MINIMUM_BIN {
      assert a - avail[bin] == available - Sum(avail, bin, top + 1);
      assert q + marked[bin] == Sum(marked, bin, top + 1);
      ScanFrom(available, top, bin - 1, bin, marked, avail);
    }
  }

  // ---------------------------------------------------------------------------
  // Buckets

  class Bucket {
    const blocks: BlockList
    /** `current_block`: the block allocation goes into, or null. */
    var currentBlock: Block?
    var age: int

    ghost predicate Valid()
      reads this, blocks, blocks.blocks
    {
      blocks.Valid() && AGE_MIN <= age <= AGE_MAX
    }

    /** `Bucket::new`: age 0, no blocks, no current block. */
    constructor ()
      ensures Valid() && age == 0 && blocks.blocks == [] && currentBlock == null
      ensures fresh(blocks)
    {
      blocks := new BlockList();
      currentBlock := null;
      age := 0;
    }

    /** `with_age(a)`: age `a`, no blocks, no current block. */
    constructor WithAge(a: int)
      requires AGE_MIN <= a <= AGE_MAX
      ensures Valid() && age == a && blocks.blocks == [] && currentBlock == null
      ensures fresh(blocks)
    {
      blocks := new BlockList();
      currentBlock := null;
      age := a;
    }

    /** `reset_age`. */
    method ResetAge()
      modifies this`age
      ensures age == 0
    {
      age := 0;
    }

    /** `increment_age`: one more; an `i8` cannot go past 127. */
    method IncrementAge()
      requires age < AGE_MAX
      modifies this`age
      ensures age == old(age) + 1
    {
      age := age + 1;
    }

    /** `current_block`: none when the pointer is null. */
    function CurrentBlock(): (r: Option<Block>)
      reads this
      ensures r.None? <==> currentBlock == null
      ensures r.Some? ==> r.value == currentBlock
    {
      if currentBlock == null then Option.None else Some(currentBlock)
    }

    /** `has_current_block`. */
    predicate HasCurrentBlock()
      reads this
      ensures HasCurrentBlock() <==> currentBlock != null
    {
      CurrentBlock().Some?
    }

    /** `set_current_block`. */
    method SetCurrentBlock(b: Block?)
      modifies this`currentBlock
      ensures currentBlock == b
    {
      currentBlock := b;
    }

    /** `add_block`: the block goes at the end of the list and becomes the
        current block. */
    method AddBlock(b: Block)
      requires Valid() && b !in blocks.blocks
      modifies this`currentBlock, blocks, blocks.Tail()`next
      ensures Valid() && blocks.blocks == old(blocks.blocks) + [b]
      ensures currentBlock == b && HasCurrentBlock()
    {
      SetCurrentBlock(b);
      blocks.Push(b);
    }

    /** `reset_current_block`: allocation starts again at the head. */
    method ResetCurrentBlock()
      modifies this`currentBlock
      ensures currentBlock == blocks.Head()
      ensures HasCurrentBlock() <==> blocks.blocks != []
    {
      SetCurrentBlock(blocks.Head());
    }

    /** `reclaim_blocks`: the blocks with a line in use are kept, in order,
        and counted; the empty blocks go to the global pool, in order; the
        current block is the head again. */
    method ReclaimBlocks(global: GlobalAllocator) returns (amount: nat)
      requires Valid() && global.Valid() && global.blocks != blocks
      requires Elements(blocks.blocks) !! Elements(global.blocks.blocks)
      modifies this`currentBlock, blocks, global.blocks
      modifies Elements(blocks.blocks)`next, global.blocks.Tail()`next
      ensures Valid() && global.Valid()
      ensures blocks.blocks == Kept(old(blocks.blocks))
      ensures global.blocks.blocks == old(global.blocks.blocks) + Released(old(blocks.blocks))
      ensures amount == |blocks.blocks|
      ensures currentBlock == blocks.Head()
    {
      ghost var g := global.blocks.blocks;
      assert forall j :: 0 <= j < |g| ==> g[j] !in Elements(blocks.blocks);
      assert Linked(g);
      var toRelease := new BlockList();
      amount := DrainAndSort(toRelease);
      assert forall j :: 0 <= j < |g| - 1 ==> g[j].next == g[j + 1];
      assert Elements(toRelease.blocks) !! Elements(g);
      global.AddBlocks(toRelease);
      ResetCurrentBlock();
    }

    /** The blocks are drained from this bucket and dealt out: those with a
        line in use come back, the empty ones go to `toRelease`. */
    method DrainAndSort(toRelease: BlockList) returns (amount: nat)
      requires blocks.Valid() && toRelease.Valid() && toRelease != blocks && toRelease.blocks == []
      modifies blocks, toRelease, Elements(blocks.blocks)`next
      ensures blocks.Valid() && toRelease.Valid()
      ensures blocks.blocks == Kept(old(blocks.blocks)) && toRelease.blocks == Released(old(blocks.blocks))
      ensures amount == |blocks.blocks|
    {
      var drained := blocks.Drain();
      amount := SortBlocks(drained, toRelease);
    }

    /** The loop of `reclaim_blocks` over the drained blocks: a block with
        a line in use goes back into this bucket and is counted, an empty
        one into the list to release. */
    method SortBlocks(drained: seq<Block>, toRelease: BlockList) returns (amount: nat)
      requires blocks.Valid() && toRelease.Valid() && toRelease != blocks
      requires blocks.blocks == [] && toRelease.blocks == [] && Distinct(drained)
      modifies blocks, toRelease, Elements(drained)`next
      ensures blocks.Valid() && toRelease.Valid()
      ensures blocks.blocks == Kept(drained) && toRelease.blocks == Released(drained)
      ensures amount == |blocks.blocks|
    {
      amount := 0;
      for i := 0 to |drained|
        invariant blocks.blocks == Kept(drained[..i]) && toRelease.blocks == Released(drained[..i])
        invariant blocks.Valid() && toRelease.Valid() && amount == |blocks.blocks|
      {
        var kept := SortOne(drained, i, toRelease);
        if kept {
          amount := amount + 1;
        }
      }
      assert drained[..|drained|] == drained;
    }

    /** One turn of the loop of `reclaim_blocks`: block `i` joins the
        bucket when it has a line in use, and the list to release when it
        is empty. */
    method SortOne(drained: seq<Block>, i: nat, toRelease: BlockList) returns (kept: bool)
      requires Distinct(drained) && i < |drained| && toRelease != blocks
      requires blocks.blocks == Kept(drained[..i]) && toRelease.blocks == Released(drained[..i])
      requires blocks.Valid() && toRelease.Valid()
      modifies blocks, toRelease, Elements(drained)`next
      ensures blocks.blocks == Kept(drained[..i + 1]) && toRelease.blocks == Released(drained[..i + 1])
      ensures blocks.Valid() && toRelease.Valid()
      ensures kept <==> !drained[i].empty
      ensures |blocks.blocks| == |old(blocks.blocks)| + if kept then 1 else 0
    {
      var block := drained[i];
      SortStep(drained, i);
      kept := !block.empty;
      if block.empty {
        PushBeside(toRelease, blocks, block);
      } else {
        PushBeside(blocks, toRelease, block);
      }
    }

    /** `prepare_for_collection`. With `evacuate` set, each block with at
        least `MINIMUM_BIN` holes adds its available lines to the bin of its
        hole count. Then, when some lines are available, the bin search
        runs down from `MAX_HOLES`, and every block with at least the
        minimum bin's holes is marked fragmented; no other block changes. */
    method PrepareForCollection(h: Histograms, evacuate: bool, maxHoles: nat)
      requires Distinct(blocks.blocks) && h.Valid()
      requires |h.available.Bins()| == maxHoles + 1 && maxHoles < |h.marked.Bins()|
      requires forall i :: 0 <= i < |blocks.blocks| && Counted(blocks.blocks[i], evacuate) ==>
        blocks.blocks[i].holes <= maxHoles
      modifies h.available.values.data, Elements(blocks.blocks)`fragmented
      ensures h.available.Bins() == AddAvailable(old(h.available.Bins()), blocks.blocks, evacuate)
      ensures var minBin := Scan(AvailableLines(blocks.blocks, evacuate), 0, maxHoles, 0,
                                 h.marked.Bins(), h.available.Bins());
        forall i :: 0 <= i < |blocks.blocks| ==>
          blocks.blocks[i].fragmented ==
            (old(blocks.blocks[i].fragmented) || (minBin > 0 && blocks.blocks[i].holes >= minBin))
    {
      var available := CountAvailable(h, evacuate);
      var minBin := 0;
      if available > 0 {
        minBin := FragmentationThreshold(available, maxHoles, h);
        if minBin > 0 {
          MarkFragmented(minBin);
        }
      }
    }

    /** The first loop of `prepare_for_collection`. */
    method CountAvailable(h: Histograms, evacuate: bool) returns (available: nat)
      requires h.Valid()
      requires forall i :: 0 <= i < |blocks.blocks| && Counted(blocks.blocks[i], evacuate) ==>
        blocks.blocks[i].holes < |h.available.Bins()|
      modifies h.available.values.data
      ensures available == AvailableLines(blocks.blocks, evacuate)
      ensures h.available.Bins() == AddAvailable(old(h.available.Bins()), blocks.blocks, evacuate)
    {
      available := 0;
      ghost var start := h.available.Bins();
      var s := blocks.blocks;
      for i := 0 to |s|
        invariant available == AvailableLines(s[..i], evacuate)
        invariant h.available.Bins() == AddAvailable(start, s[..i], evacuate)
      {
        var block := s[i];
        assert s[..i + 1] == s[..i] + [block];
        AddAvailableSnoc(start, s[..i], block, evacuate);
        if evacuate && block.holes >= MINIMUM_BIN {
          var lines := block.availableLines;
          h.available.Increment(block.holes, lines);
          available := available + lines;
        }
      }
      assert s[..|s|] == s;
    }

    /** The last loop of `prepare_for_collection`: blocks with at least
        `minBin` holes become fragmented. */
    method MarkFragmented(minBin: nat)
      requires Distinct(blocks.blocks)
      modifies Elements(blocks.blocks)`fragmented
      ensures forall i :: 0 <= i < |blocks.blocks| ==>
        blocks.blocks[i].fragmented == (old(blocks.blocks[i].fragmented) || blocks.blocks[i].holes >= minBin)
    {
      var s := blocks.blocks;
      for i := 0 to |s|
        invariant forall j :: 0 <= j < i ==> s[j].fragmented == (old(s[j].fragmented) || s[j].holes >= minBin)
        invariant forall j :: i <= j < |s| ==> s[j].fragmented == old(s[j].fragmented)
      {
        if s[i].holes >= minBin {
          s[i].fragmented := true;
        }
      }
    }
  }

  /** The bin search of `prepare_for_collection`, from `MAX_HOLES` down;
      the result is the minimum bin, 0 when the search never starts. */
  method FragmentationThreshold(available: int, maxHoles: nat, h: Histograms) returns (minBin: nat)
    requires maxHoles < |h.available.Bins()| && maxHoles < |h.marked.Bins()|
    ensures minBin == Scan(available, 0, maxHoles, 0, h.marked.Bins(), h.available.Bins())
    ensures minBin == 0 <==> !(available > 0 && maxHoles >= MINIMUM_BIN)
    ensures minBin != 0 ==> MINIMUM_BIN <= minBin <= maxHoles
  {
    var marked, avail := h.marked.Bins(), h.available.Bins();
    var required := 0;
    var left := available;
    var bin: nat := maxHoles;
    minBin := 0;
    ScanMeaning(available, maxHoles, marked, avail);
    while left > required && bin >= MINIMUM_BIN
      invariant bin <= maxHoles
      invariant Scan(left, required, bin, minBin, marked, avail) ==
        Scan(available, 0, maxHoles, 0, marked, avail)
    {
      required := required + h.marked.Get(bin);
      left := left - h.available.Get(bin);
      minBin := bin;
      bin := bin - 1;
    }
  }
}
