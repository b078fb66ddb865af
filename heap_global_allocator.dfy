/** The global allocator (`src/heap/global_allocator.rs`): a pool of free
    blocks shared by the process-local allocators. The mutex around the
    pool is left out; each call is one step. */
module HeapGlobalAllocator {
  import opened Wrappers
  import opened HeapBlockList

  class GlobalAllocator {
    const blocks: BlockList

    ghost predicate Valid()
      reads blocks, blocks.blocks
    {
      blocks.Valid()
    }

    /** `with_rc`: an empty pool. */
    constructor ()
      ensures Valid() && blocks.blocks == [] && fresh(blocks)
    {
      blocks := new BlockList();
    }

    /** `request_block`: the block added last leaves the pool; with an empty
        pool a new block is made (one hole: all of its lines are free). */
    method RequestBlock() returns (b: Block)
      requires Valid()
      modifies blocks, blocks.BeforeTail()`next
      ensures Valid()
      ensures old(blocks.blocks) != [] ==>
        b == old(blocks.blocks)[|old(blocks.blocks)| - 1] &&
        blocks.blocks == old(blocks.blocks)[..|old(blocks.blocks)| - 1]
      ensures old(blocks.blocks) == [] ==>
        fresh(b) && b.next == null && b.holes == 1 && blocks.blocks == []
    {
      var popped := blocks.Pop();
      match popped
      case Some(block) =>
        b := block;
      case None =>
        b := new Block(1, 0, 0, true);
    }

    /** `add_block`: the block joins the pool. */
    method AddBlock(b: Block)
      requires Valid() && b !in blocks.blocks
      modifies blocks, blocks.Tail()`next
      ensures Valid() && blocks.blocks == old(blocks.blocks) + [b]
    {
      blocks.Push(b);
    }

    /** `add_blocks(l)`: every block of `l` joins the pool, in order, and `l`
        is left empty. */
    method AddBlocks(l: BlockList)
      requires Valid() && l.Valid() && l != blocks
      requires Elements(l.blocks) !! Elements(blocks.blocks)
      modifies blocks, l, blocks.Tail()`next
      ensures Valid() && l.Valid()
      ensures blocks.blocks == old(blocks.blocks) + old(l.blocks) && l.blocks == []
    {
      blocks.Append(l);
    }
  }

  /** A block handed back to an empty pool is the block the next request
      gets. */
  method ReturnThenRequest(g: GlobalAllocator, b: Block) returns (r: Block)
    requires g.Valid() && b !in g.blocks.blocks
    modifies g.blocks, g.blocks.Tail()`next
    ensures r == b && g.blocks.blocks == old(g.blocks.blocks)
  {
    g.AddBlock(b);
    r := g.RequestBlock();
  }
}
