/** Block lists (`src/heap/block_list.rs`): the blocks of a bucket or of the
    global pool, kept in a vector whose blocks are also linked through their
    `next` pointers so that allocators can follow the chain. */
module HeapBlockList {
  import opened Wrappers

  /** A block of the Immix heap. Its line maps and hole counting live in
      `src/heap/block.rs`, which is not part of this model: the statistics
      the bucket code reads from a block are fixed when the block is made. */
  class Block {
    /** The next block of the list the block is in, or null. */
    var next: Block?
    /** Whether the block is to be evacuated. */
    var fragmented: bool
    /** `holes()`: the number of holes. */
    const holes: nat
    /** `available_lines_count()`. */
    const availableLines: nat
    /** `marked_lines_count()`. */
    const markedLines: nat
    /** `is_empty()` after `update_line_map`: no line is in use. */
    const empty: bool

    constructor (holes: nat, availableLines: nat, markedLines: nat, empty: bool)
      ensures next == null && !fragmented
      ensures this.holes == holes && this.availableLines == availableLines
      ensures this.markedLines == markedLines && this.empty == empty
    {
      next := null;
      fragmented := false;
      this.holes := holes;
      this.availableLines := availableLines;
      this.markedLines := markedLines;
      this.empty := empty;
    }
  }

  /** No block occurs twice (a list owns its blocks). */
  ghost predicate Distinct(s: seq<Block>)
  {
    forall i, j :: 0 <= i < j < |s| ==> s[i] != s[j]
  }

  /** Every block but the last links to its successor. */
  ghost predicate Linked(s: seq<Block>)
    reads s
  {
    forall i :: 0 <= i < |s| - 1 ==> s[i].next == s[i + 1]
  }

  /** A linked run of blocks whose last block links nowhere: following
      `next` from its first block visits exactly these blocks. */
  ghost predicate Chain(s: seq<Block>)
    reads s
  {
    Linked(s) && (s != [] ==> s[|s| - 1].next == null)
  }

  /** The set of blocks of a sequence. */
  function Elements(s: seq<Block>): set<Block>
  {
    set b | b in s
  }

  /** Two linked runs, the first one's last block linking to the second
      one's first, form one linked run. */
  lemma ConcatLinked(a: seq<Block>, b: seq<Block>)
    requires Linked(a) && Linked(b)
    requires a != [] && b != [] ==> a[|a| - 1].next == b[0]
    ensures Linked(a + b)
  {
    var s := a + b;
    forall i | 0 <= i < |s| - 1
      ensures s[i].next == s[i + 1]
    {
      if i + 1 < |a| {
        assert s[i] == a[i] && s[i + 1] == a[i + 1];
      } else if i + 1 == |a| {
        assert s[i] == a[|a| - 1] && s[i + 1] == b[0];
      } else {
        assert s[i] == b[i - |a|] && s[i + 1] == b[i - |a| + 1];
      }
    }
  }

  /** Runs of distinct blocks with no block in common concatenate to a run
      of distinct blocks. */
  lemma ConcatDistinct(a: seq<Block>, b: seq<Block>)
    requires Distinct(a) && Distinct(b) && Elements(a) !! Elements(b)
    ensures Distinct(a + b)
  {
    var s := a + b;
    forall i, j | 0 <= i < j < |s|
      ensures s[i] != s[j]
    {
      if j >= |a| && i < |a| {
        assert s[i] in Elements(a) && s[j] in Elements(b);
      }
    }
  }

  class BlockList {
    var blocks: seq<Block>

    /** The blocks are distinct and linked in order. */
    ghost predicate Valid()
      reads this, blocks
    {
      Distinct(blocks) && Linked(blocks)
    }

    /** The last block, whose `next` a push or an append rewrites. */
    function Tail(): (r: set<Block>)
      reads this
      ensures r <= Elements(blocks)
    {
      if blocks == [] then {} else {blocks[|blocks| - 1]}
    }

    /** The block before the last, whose `next` a pop clears. */
    function BeforeTail(): set<Block>
      reads this
    {
      if |blocks| < 2 then {} else {blocks[|blocks| - 2]}
    }

    /** `BlockList::new`: no blocks. */
    constructor ()
      ensures blocks == [] && Valid()
    {
      blocks := [];
    }

    /** `len`. */
    function Len(): nat
      reads this
    {
      |blocks|
    }

    /** `is_empty`: the list has no block. */
    predicate IsEmpty()
      reads this
    {
      blocks == []
    }

    /** `head`: the first block, or null. */
    function Head(): (r: Block?)
      reads this
      ensures r == null <==> Len() == 0
      ensures r != null ==> r == blocks[0]
    {
      if blocks == [] then null else blocks[0]
    }

    /** `push`: the block goes at the end and the previous last block links
        to it. */
    method Push(b: Block)
      requires Valid() && b !in blocks
      modifies this, Tail()`next
      ensures blocks == old(blocks) + [b] && Valid()
      ensures Chain(old(blocks)) && b.next == null ==> Chain(blocks)
    {
      if blocks != [] {
        blocks[|blocks| - 1].next := b;
      }
      blocks := blocks + [b];
    }

    /** `pop`: the last block comes off, and the new last block links
        nowhere; an empty list gives none. */
    method Pop() returns (r: Option<Block>)
      requires Valid()
      modifies this, BeforeTail()`next
      ensures old(blocks) == [] ==> r == Option.None && blocks == []
      ensures old(blocks) != [] ==>
        r == Some(old(blocks)[|old(blocks)| - 1]) && blocks == old(blocks)[..|old(blocks)| - 1]
      ensures Valid() && Chain(blocks)
    {
      if blocks == [] {
        return Option.None;
      }
      var last := blocks[|blocks| - 1];
      blocks := blocks[..|blocks| - 1];
      if blocks != [] {
        blocks[|blocks| - 1].next := null;
      }
      r := Some(last);
    }

    /** `append(other)`: the blocks of `other` follow this list's, this
        list's old last block links to `other`'s head, and `other` is left
        empty. */
    method Append(other: BlockList)
      requires Valid() && other.Valid() && other != this
      requires Elements(blocks) !! Elements(other.blocks)
      modifies this, other, Tail()`next
      ensures blocks == old(blocks) + old(other.blocks) && other.blocks == []
      ensures Valid() && other.Valid()
      ensures Chain(old(blocks)) && Chain(old(other.blocks)) ==> Chain(blocks)
    {
      ghost var a, b := blocks, other.blocks;
      if blocks != [] {
        blocks[|blocks| - 1].next := other.Head();
        assert forall i :: 0 <= i < |a| - 1 ==> a[i] != a[|a| - 1];
      }
      assert forall i :: 0 <= i < |b| ==> b[i] !in Elements(a);
      ConcatLinked(a, b);
      ConcatDistinct(a, b);
      blocks := blocks + other.blocks;
      other.blocks := [];
    }

    /** `drain`: the list is emptied and its blocks are handed out in order,
        each with its `next` link cleared. */
    method Drain() returns (drained: seq<Block>)
      requires Valid()
      modifies this, Elements(blocks)`next
      ensures drained == old(blocks) && blocks == [] && Valid()
      ensures forall i :: 0 <= i < |drained| ==> drained[i].next == null
    {
      drained := blocks;
      blocks := [];
      for i := 0 to |drained|
        invariant blocks == []
        invariant forall j :: 0 <= j < i ==> drained[j].next == null
      {
        drained[i].next := null;
      }
    }
  }

  /** `BlockIterator`: starting at a block, yields it and follows `next`
      until a null link. Over a chain it yields exactly the chain's
      blocks, in order. */
  method Walk(start: Block?, ghost chain: seq<Block>) returns (visited: seq<Block>)
    requires Chain(chain)
    requires start == if chain == [] then null else chain[0]
    ensures visited == chain
  {
    var current := start;
    visited := [];
    ghost var k := 0;
    while current != null
      invariant 0 <= k <= |chain| && visited == chain[..k]
      invariant current == if k == |chain| then null else chain[k]
      decreases |chain| - k
    {
      visited := visited + [current];
      current := current.next;
      k := k + 1;
    }
    assert chain[..|chain|] == chain;
  }

  /** A list whose last block links nowhere is walked, from its head, in
      list order. */
  method WalkList(list: BlockList) returns (visited: seq<Block>)
    requires list.Valid() && Chain(list.blocks)
    ensures visited == list.blocks
  {
    visited := Walk(list.Head(), list.blocks);
  }
}
