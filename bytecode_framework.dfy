/** A bytecode function as the register allocator sees it
    (`bytecode/framework.rs`): its instructions, the blocks laid over them,
    the counter of virtual registers and the spill stack, the queries the
    allocator makes, and the universe of 48 real registers it allocates
    from. */
module BytecodeFramework {
  import opened Wrappers
  import opened RegallocRegs
  import opened RegallocUniverse
  import opened BytecodeInsns
  import opened BytecodeBlock

  /** `TypedIxVec::len`, which casts the length to `u32`. */
  function Len32(n: nat): u32 { n % U32_LIMIT }

  /** `Block`: a label and the run of instructions `start..start + len`. */
  datatype Block = Block(id: nat, start: u32, len: u32)

  // ---------------------------------------------------------------------------
  // Block layout

  /** The instruction just past the last block, 0 when there is none. */
  function End(blocks: seq<Block>): nat
  {
    if blocks == [] then 0 else blocks[|blocks| - 1].start + blocks[|blocks| - 1].len
  }

  /** The blocks lie back to back from instruction 0. */
  predicate Contiguous(blocks: seq<Block>)
  {
    (blocks != [] ==> blocks[0].start == 0) &&
    (forall k :: 0 < k < |blocks| ==> blocks[k].start == blocks[k - 1].start + blocks[k - 1].len)
  }

  /** The blocks lie back to back from instruction 0 and cover all `n`
      instructions. */
  predicate Tiled(blocks: seq<Block>, n: nat)
  {
    Contiguous(blocks) && End(blocks) == n
  }

  lemma ContiguousInit(blocks: seq<Block>)
    requires Contiguous(blocks) && blocks != []
    ensures Contiguous(blocks[..|blocks| - 1])
    ensures End(blocks[..|blocks| - 1]) == blocks[|blocks| - 1].start
  {
    var init := blocks[..|blocks| - 1];
    assert forall k :: 0 <= k < |init| ==> init[k] == blocks[k];
  }

  /** The instructions of one block; slicing past the end panics. */
  function SliceOf(insns: seq<Instruction>, b: Block): Result<seq<Instruction>>
  {
    if b.start + b.len <= |insns| then Success(insns[b.start..b.start + b.len])
    else Failure("range end index out of range for slice")
  }

  /** `to_basic_blocks` as a function: the instructions of each block in
      turn, panicking at the first block that runs past the end. */
  function Slices(insns: seq<Instruction>, blocks: seq<Block>): Result<seq<seq<Instruction>>>
  {
    if blocks == [] then Success([])
    else
      var init :- Slices(insns, blocks[..|blocks| - 1]);
      var last :- SliceOf(insns, blocks[|blocks| - 1]);
      Success(init + [last])
  }

  /** Once a block runs past the end, every longer prefix panics with the
      same message. */
  lemma {:induction false} SlicesFailFrom(insns: seq<Instruction>, blocks: seq<Block>, k: nat, m: nat)
    requires k < m <= |blocks|
    requires Slices(insns, blocks[..k]).Success? && SliceOf(insns, blocks[k]).Failure?
    ensures Slices(insns, blocks[..m]) == SliceOf(insns, blocks[k]).PropagateFailure()
    decreases m
  {
    assert blocks[..m][..m - 1] == blocks[..m - 1];
    if m > k + 1 {
      SlicesFailFrom(insns, blocks, k, m - 1);
    }
  }

  /** `to_basic_blocks` succeeds exactly when every block lies within the
      instructions, and then gives each block's own instructions. */
  lemma {:induction false} SlicesMeaning(insns: seq<Instruction>, blocks: seq<Block>)
    ensures Slices(insns, blocks).Success? <==>
      forall k :: 0 <= k < |blocks| ==> blocks[k].start + blocks[k].len <= |insns|
    ensures Slices(insns, blocks).Success? ==>
      var r := Slices(insns, blocks).value;
      |r| == |blocks| &&
      forall k :: 0 <= k < |blocks| ==> r[k] == insns[blocks[k].start..blocks[k].start + blocks[k].len]
  {
    if blocks != [] {
      var init := blocks[..|blocks| - 1];
      SlicesMeaning(insns, init);
      assert forall k :: 0 <= k < |init| ==> init[k] == blocks[k];
    }
  }

  /** Cut along contiguous blocks, `to_basic_blocks` gives back the
      instructions they cover, in order. */
  lemma {:induction false} ContiguousSlices(insns: seq<Instruction>, blocks: seq<Block>)
    requires Contiguous(blocks) && End(blocks) <= |insns|
    ensures Slices(insns, blocks).Success?
    ensures Concat(Slices(insns, blocks).value) == insns[..End(blocks)]
  {
    if blocks != [] {
      var init := blocks[..|blocks| - 1];
      var b := blocks[|blocks| - 1];
      ContiguousInit(blocks);
      ContiguousSlices(insns, init);
      var r := Slices(insns, init).value;
      assert Slices(insns, blocks).value == r + [insns[b.start..b.start + b.len]];
      assert (r + [insns[b.start..b.start + b.len]])[..|r|] == r;
      assert insns[..b.start] + insns[b.start..b.start + b.len] == insns[..b.start + b.len];
    }
  }

  /** Cut along a tiling, the blocks give back all the instructions in
      order. */
  lemma TiledSlices(insns: seq<Instruction>, blocks: seq<Block>)
    requires Tiled(blocks, |insns|)
    ensures Slices(insns, blocks).Success?
    ensures Concat(Slices(insns, blocks).value) == insns
  {
    ContiguousSlices(insns, blocks);
    assert insns[..|insns|] == insns;
  }

  /** Every block of a tiling ends no later than the last one. */
  lemma {:induction false} TiledEnd(blocks: seq<Block>, n: nat, k: nat)
    requires Tiled(blocks, n) && k < |blocks|
    ensures blocks[k].start + blocks[k].len <= n
    decreases |blocks| - k
  {
    if k + 1 < |blocks| {
      TiledEnd(blocks, n, k + 1);
      assert blocks[k + 1].start == blocks[k].start + blocks[k].len;
    }
  }

  function Concat(xss: seq<seq<Instruction>>): seq<Instruction>
  {
    if xss == [] then [] else Concat(xss[..|xss| - 1]) + xss[|xss| - 1]
  }

  /** Appending a block of `m` instructions after `n` keeps the tiling while
      the lengths fit in 32 bits. */
  lemma BlockKeepsTiled(blocks: seq<Block>, n: nat, id: nat, m: nat)
    requires Tiled(blocks, n) && n + m < U32_LIMIT
    ensures Tiled(blocks + [Block(id, Len32(n), Len32(m))], n + m)
  {
    var bs := blocks + [Block(id, Len32(n), Len32(m))];
    forall k | 0 < k < |bs| ensures bs[k].start == bs[k - 1].start + bs[k - 1].len {
      if k == |blocks| {
        assert bs[k - 1] == blocks[|blocks| - 1];
      } else {
        assert bs[k] == blocks[k] && bs[k - 1] == blocks[k - 1];
      }
    }
  }

  // ---------------------------------------------------------------------------
  // Relaying the blocks after allocation

  /** Where block `k` ends after allocation: the next block's new start, or
      the end of the new instructions for the last block. */
  function NextStart(targetMap: seq<u32>, k: nat, numBlocks: nat, n: u32): u32
    requires k < numBlocks <= |targetMap|
  {
    if k + 1 < numBlocks then targetMap[k + 1] else n
  }

  /** `update_from_alloc` panics unless the target map has a start for
      every block and no block would get a negative length. */
  predicate LayoutOk(numBlocks: nat, targetMap: seq<u32>, n: u32)
  {
    numBlocks <= |targetMap| &&
    forall k :: 0 <= k < numBlocks ==> targetMap[k] <= NextStart(targetMap, k, numBlocks, n)
  }

  /** The blocks with their new starts and lengths. */
  function Relaid(blocks: seq<Block>, targetMap: seq<u32>, n: u32): (r: seq<Block>)
    requires LayoutOk(|blocks|, targetMap, n)
    ensures |r| == |blocks|
  {
    seq(|blocks|, k requires 0 <= k < |blocks| =>
      blocks[k].(start := targetMap[k], len := NextStart(targetMap, k, |blocks|, n) - targetMap[k]))
  }

  /** After allocation the blocks keep their labels and order, and when the
      first starts at 0 they tile the new instructions again. */
  lemma RelaidTiled(blocks: seq<Block>, targetMap: seq<u32>, n: u32)
    requires LayoutOk(|blocks|, targetMap, n) && blocks != [] && targetMap[0] == 0
    ensures forall k :: 0 <= k < |blocks| ==> Relaid(blocks, targetMap, n)[k].id == blocks[k].id
    ensures Tiled(Relaid(blocks, targetMap, n), n)
  {
    var r := Relaid(blocks, targetMap, n);
    forall k | 0 < k < |r| ensures r[k].start == r[k - 1].start + r[k - 1].len {
      assert NextStart(targetMap, k - 1, |blocks|, n) == targetMap[k];
    }
    if r != [] {
      var last := |r| - 1;
      assert NextStart(targetMap, last, |blocks|, n) == n;
      assert r[last].start + r[last].len == n;
    }
  }

  // ---------------------------------------------------------------------------
  // Queries on a function the allocator makes through its interface

  /** `is_move`: a `Move` names its two registers as virtual `I64`
      registers. */
  function IsMove(i: Instruction): Result<Option<(Reg, Reg)>>
  {
    match i
    case Move(dst, src) =>
      var d :- NewVirtual(I64, dst);
      var s :- NewVirtual(I64, src);
      Success(Some((d, s)))
    case _ => Success(None)
  }

  /** `gen_spill`: pushes the register onto the stack. */
  function GenSpill(from: RealReg): Instruction
  {
    Push(GetIndex(from))
  }

  /** `gen_reload`: loads the register from the slot, its number cast to
      `u16`. */
  function GenReload(to: RealReg, slot: SpillSlot): Instruction
  {
    LoadStack(GetIndex(to), slot.n % 0x1_0000)
  }

  /** `gen_move`. */
  function GenMove(to: RealReg, from: RealReg): Instruction
  {
    Move(GetIndex(to), GetIndex(from))
  }

  /** A spill reads the register and a reload writes the same one back, as
      the allocator sees them after mapping. */
  lemma SpillReloadPair(r: RealReg, slot: SpillSlot)
    ensures var reg := MkReg(GetIndex(r), true).value;
      GetRegUsageCorrected(GenSpill(r), true) == Success(RegUsage({}, {}, {reg})) &&
      GetRegUsageCorrected(GenReload(r, slot), true) == Success(RegUsage({reg}, {}, {}))
  {
    var reg := MkReg(GetIndex(r), true).value;
    assert Operands(GenSpill(r)) == [Use(GetIndex(r))];
    assert Operands(GenReload(r, slot)) == [Def(GetIndex(r))];
    UsageOfOne(Use(GetIndex(r)), true);
    UsageOfOne(Def(GetIndex(r)), true);
    assert {} + {reg} == {reg};
  }

  /** `is_move` recognises what `gen_move` generates, with the registers in
      the same order. */
  lemma GenMoveIsMove(to: RealReg, from: RealReg)
    ensures var m := IsMove(GenMove(to, from));
      m.Success? && m.value.Some? &&
      GetIndex(m.value.value.0) == GetIndex(to) && GetIndex(m.value.value.1) == GetIndex(from)
  {
  }

  /** `get_spillslot_size`: every value takes one slot. */
  function GetSpillslotSize(rc: RegClass, v: VirtualReg): (n: nat)
    ensures n == 1
  {
    1
  }

  // ---------------------------------------------------------------------------
  // The function

  class BytecodeFunction {
    var blocks: seq<Block>
    var instructions: seq<Instruction>
    /** Shared through a pointer in the source. */
    var stackPositions: map<nat, nat>
    var virtualRegs: nat
    var stack: nat
    /** The process-wide `MAPED` flag: set once `map_regs` has run, so that
        `get_regs` reports real registers from then on. */
    var mapped: bool

    constructor ()
      ensures blocks == [] && instructions == [] && stackPositions == map[]
      ensures virtualRegs == 0 && stack == 0 && !mapped
    {
      blocks := [];
      instructions := [];
      stackPositions := map[];
      virtualRegs := 0;
      stack := 0;
      mapped := false;
    }

    /** `new_virt_reg`: the next register number, cast to `u32`. */
    method NewVirtReg() returns (v: u32)
      modifies this
      ensures v == Len32(old(virtualRegs)) && virtualRegs == old(virtualRegs) + 1
      ensures blocks == old(blocks) && instructions == old(instructions)
      ensures stackPositions == old(stackPositions) && stack == old(stack) && mapped == old(mapped)
    {
      v := Len32(virtualRegs);
      virtualRegs := virtualRegs + 1;
    }

    /** `spill`: the slot's position above the spill area so far, recorded
        for the slot; the spill area grows by one. */
    method Spill(x: SpillSlot) returns (realPos: nat)
      modifies this
      ensures realPos == x.n + old(stack) && stack == old(stack) + 1
      ensures stackPositions == old(stackPositions)[x.n := realPos]
      ensures blocks == old(blocks) && instructions == old(instructions)
      ensures virtualRegs == old(virtualRegs) && mapped == old(mapped)
    {
      realPos := x.n + stack;
      stackPositions := stackPositions[x.n := realPos];
      stack := stack + 1;
    }

    /** `block`: appends a block's instructions and records where they
        lie. */
    method AddBlock(idx: nat, insns: seq<Instruction>)
      modifies this
      ensures instructions == old(instructions) + insns
      ensures blocks == old(blocks) + [Block(idx, Len32(|old(instructions)|), Len32(|insns|))]
      ensures stackPositions == old(stackPositions) && virtualRegs == old(virtualRegs)
      ensures stack == old(stack) && mapped == old(mapped)
    {
      var start := |instructions|;
      var len := Len32(|insns|);
      instructions := instructions + insns;
      blocks := blocks + [Block(idx, Len32(start), len)];
    }

    /** `to_basic_blocks`: the instructions of each block, in block order. */
    method ToBasicBlocks() returns (r: Result<seq<seq<Instruction>>>)
      ensures r == Slices(instructions, blocks)
    {
      var res := [];
      var k := 0;
      while k < |blocks|
        invariant 0 <= k <= |blocks|
        invariant Slices(instructions, blocks[..k]) == Success(res)
      {
        var b := blocks[k];
        if b.start + b.len > |instructions| {
          SlicesFailFrom(instructions, blocks, k, |blocks|);
          assert blocks[..|blocks|] == blocks;
          return Failure("range end index out of range for slice");
        }
        assert blocks[..k + 1][..k] == blocks[..k];
        res := res + [instructions[b.start..b.start + b.len]];
        k := k + 1;
      }
      assert blocks[..k] == blocks;
      return Success(res);
    }

    /** `update_from_alloc`: takes the allocated instructions and moves each
        block to the start the allocator gives it, running up to the next
        block's start; `false` where the source panics. */
    method UpdateFromAlloc(insns: seq<Instruction>, targetMap: seq<u32>) returns (ok: bool)
      modifies this
      ensures ok == LayoutOk(|old(blocks)|, targetMap, Len32(|insns|))
      ensures instructions == insns
      ensures ok ==> blocks == Relaid(old(blocks), targetMap, Len32(|insns|))
      ensures stackPositions == old(stackPositions) && virtualRegs == old(virtualRegs)
      ensures stack == old(stack) && mapped == old(mapped)
    {
      instructions := insns;
      var n := Len32(|insns|);
      var numBlocks := |blocks|;
      ghost var orig := blocks;
      if |targetMap| < numBlocks {
        return false;
      }
      var i := 0;
      while i < numBlocks
        invariant 0 <= i <= numBlocks == |blocks| == |orig|
        invariant instructions == insns
        invariant stackPositions == old(stackPositions) && virtualRegs == old(virtualRegs)
        invariant stack == old(stack) && mapped == old(mapped) && orig == old(blocks)
        invariant numBlocks <= |targetMap|
        invariant forall k :: 0 <= k < i ==> targetMap[k] <= NextStart(targetMap, k, numBlocks, n)
        invariant forall k :: 0 <= k < i ==>
          blocks[k] == orig[k].(start := targetMap[k], len := NextStart(targetMap, k, numBlocks, n) - targetMap[k])
        invariant forall k :: i <= k < numBlocks ==> blocks[k] == orig[k]
      {
        var start := targetMap[i];
        var next := if i + 1 < numBlocks then targetMap[i + 1] else n;
        if next < start {
          return false;
        }
        blocks := blocks[i := blocks[i].(start := start, len := next - start)];
        i := i + 1;
      }
      return true;
    }

    /** `is_ret`. */
    function IsRet(ix: nat): (r: Result<bool>)
      reads this
      ensures r.Success? <==> ix < |instructions|
      ensures r.Success? ==> (r.value <==> instructions[ix].Return?)
    {
      if ix < |instructions| then Success(instructions[ix].Return?)
      else Failure("index out of bounds")
    }

    /** `block_insns`: the range of the block's instructions; the end is
        computed in `u32` and panics on overflow. */
    function BlockInsns(b: nat): (r: Result<MyRange>)
      reads this
      ensures r.Success? <==> b < |blocks| && blocks[b].start + blocks[b].len < U32_LIMIT
      ensures r.Success? ==> r.value.first == blocks[b].start && r.value.len == blocks[b].len
    {
      if b >= |blocks| then Failure("index out of bounds")
      else if blocks[b].start + blocks[b].len >= U32_LIMIT then Failure("attempt to add with overflow")
      else Success(NewRange(blocks[b].start, blocks[b].len))
    }

    /** `block_succs`: the targets of the block's last instruction; an empty
        block underflows `len - 1` and panics. */
    function BlockSuccs(b: nat): (r: Result<seq<nat>>)
      reads this
      ensures r.Success? <==>
        b < |blocks| && blocks[b].len > 0 && blocks[b].start + blocks[b].len <= |instructions|
      ensures r.Success? ==>
        |r.value| <= 2 && r.value == GetTargets(instructions[blocks[b].start + blocks[b].len - 1])
    {
      if b >= |blocks| then Failure("index out of bounds")
      else if blocks[b].len == 0 then Failure("attempt to subtract with overflow")
      else
        var last := blocks[b].start + blocks[b].len - 1;
        if last >= |instructions| then Failure("index out of bounds")
        else Success(GetTargets(instructions[last]))
    }

    /** `get_regs`: the usage `get_reg_usage` reports as written, under
        the flag `map_regs` raises. It panics exactly when it runs before
        allocation on an operand past 28 bits, and after allocation every
        register it reports is real. */
    function GetRegs(i: Instruction): (r: Result<RegUsage>)
      reads this
      ensures r.Success? <==> mapped || forall k :: 0 <= k < |Operands(i)| ==> Operands(i)[k].reg < VIRTUAL_INDEX_LIMIT
      ensures mapped ==> r.Success? && forall reg :: reg in r.value.defined + r.value.modified + r.value.used ==> IsReal(reg)
    {
      UsageSucceeds(Operands(i), mapped);
      if mapped then MappedRegsAreReal(i); GetRegUsage(i, mapped)
      else GetRegUsage(i, mapped)
    }

    /** `map_regs`: raises the flag and rewrites the instruction with the
        allocator's post-map for definitions and pre-map for uses. */
    method MapRegs(i: Instruction, preMap: map<VirtualReg, RealReg>, postMap: map<VirtualReg, RealReg>)
      returns (r: Result<Instruction>)
      modifies this
      ensures mapped
      ensures r == MapRegsDU(i, postMap, preMap)
      ensures blocks == old(blocks) && instructions == old(instructions)
      ensures stackPositions == old(stackPositions) && virtualRegs == old(virtualRegs) && stack == old(stack)
    {
      mapped := true;
      r := MapRegsDU(i, postMap, preMap);
    }
  }

  /** A non-empty block that lies within the instructions has as successors
      the targets of its own terminator, as `branch_targets` reports them on
      the block `to_basic_blocks` cuts out for it (every block of a tiling
      lies within the instructions, by `TiledEnd`). */
  lemma BlockSuccsOfBlock(f: BytecodeFunction, b: nat)
    requires b < |f.blocks| && f.blocks[b].len > 0
    requires f.blocks[b].start + f.blocks[b].len <= |f.instructions|
    ensures f.BlockSuccs(b).Success? && SliceOf(f.instructions, f.blocks[b]).Success?
    ensures var block := SliceOf(f.instructions, f.blocks[b]).value;
      BranchTargets(block).Success? ==> Present(BranchTargets(block).value) == f.BlockSuccs(b).value
  {
    var blk := f.blocks[b];
    var block := f.instructions[blk.start..blk.start + blk.len];
    assert block[|block| - 1] == f.instructions[blk.start + blk.len - 1];
    BranchTargetsAgree(block);
  }

  /** After `map_regs` has run, every register `get_reg_usage` reports,
      as written, is real. */
  lemma MappedRegsAreReal(i: Instruction)
    ensures GetRegUsage(i, true).Success?
    ensures forall r :: r in GetRegUsage(i, true).value.defined ==> IsReal(r)
    ensures forall r :: r in GetRegUsage(i, true).value.used ==> IsReal(r)
    ensures forall r :: r in GetRegUsage(i, true).value.modified ==> IsReal(r)
  {
    var ops := Operands(i);
    UsageSucceeds(ops, true);
    forall r, role | r in RoleSet(GetRegUsage(i, true).value, role) ensures IsReal(r) {
      UsageMembers(ops, true, role, r);
    }
    assert forall r :: r in GetRegUsage(i, true).value.defined ==> r in RoleSet(GetRegUsage(i, true).value, Defined);
    assert forall r :: r in GetRegUsage(i, true).value.used ==> r in RoleSet(GetRegUsage(i, true).value, Used);
    assert forall r :: r in GetRegUsage(i, true).value.modified ==> r in RoleSet(GetRegUsage(i, true).value, Modified);
  }

  // ---------------------------------------------------------------------------
  // The register universe

  const REG_COUNT: nat := 48

  /** The universe `make_universe` builds for `n` registers: real `I64`
      registers with hardware encoding 0 at indices `0..n`, all allocable, all
      in the `I64` group. */
  function Universe(n: nat): RealRegUniverse
    requires 0 < n <= 256
  {
    RealRegUniverse(seq(n, i requires 0 <= i < n => NewReal(I64, 0, i)), n,
      [None, None, Some((0, n - 1)), None, None])
  }

  /** That universe passes `check_is_sane` and meets the invariant the
      allocator relies on. */
  lemma UniverseSane(n: nat)
    requires 0 < n <= 256
    ensures WellShaped(Universe(n)) && Sane(Universe(n))
  {
    var u := Universe(n);
    assert forall i :: 0 <= i < n ==> GetClass(u.regs[i]) == Success(I64) && GetIndex(u.regs[i]) == i;
    assert ClassUsed(u, 2) by {
      assert GetClass(u.regs[0]) == RcFromU32(2);
    }
    assert !ClassUsed(u, 0) && !ClassUsed(u, 1) && !ClassUsed(u, 3) && !ClassUsed(u, 4);
    assert RangeMatchesBelow(u, 2, 0, n);
    assert Scan(u, 3) == Some(0);
    assert Scan(u, 0) == Some(n);
  }

  /** `make_universe`: registers the 48 registers one at a time, checks the
      universe and returns it; the check cannot panic. */
  method MakeUniverse() returns (r: Result<RealRegUniverse>)
    ensures r == Success(Universe(REG_COUNT))
  {
    var regs: seq<Reg> := [];
    var byClass: seq<Option<(nat, nat)>> := [None, None, None, None, None];
    var index: u8 := 0;
    var first: nat := index;
    var i := 0;
    while i < REG_COUNT
      invariant 0 <= i <= REG_COUNT && index == i && first == 0
      invariant regs == seq(i, j requires 0 <= j < i => NewReal(I64, 0, j))
      invariant byClass == if i == 0 then [None, None, None, None, None] else [None, None, Some((0, i - 1)), None, None]
    {
      regs := regs + [NewReal(I64, 0, index)];
      index := index + 1;
      var last := index - 1;
      byClass := byClass[RcToU32(I64) := Some((first, last))];
      i := i + 1;
    }
    var u := RealRegUniverse(regs, |regs|, byClass);
    assert u == Universe(REG_COUNT);
    UniverseSane(REG_COUNT);
    var sane := CheckIsSane(u);
    if !sane {
      return Failure("universe is not sane");
    }
    return Success(u);
  }
}
