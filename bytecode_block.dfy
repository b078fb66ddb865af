/** Basic blocks of bytecode (`bytecode/block.rs`): a list of instructions
    whose last one is the block's terminator. */
module BytecodeBlock {
  import opened Wrappers
  import opened BytecodeInsns

  // ---------------------------------------------------------------------------
  // Redirecting a terminator

  function ReplaceTarget(t: u16, to: u16, from: u16): u16
  {
    if t == from then to else t
  }

  /** What `try_replace_branch_targets` does to the last instruction: every
      target equal to `from` becomes `to`; `None` when the instruction is no
      jump or has no such target (and is then left alone). */
  function Redirect(i: Instruction, to: u16, from: u16): Option<Instruction>
  {
    match i
    case ConditionalGoto(r, t, f) =>
      if t == from || f == from then
        Some(ConditionalGoto(r, ReplaceTarget(t, to, from), ReplaceTarget(f, to, from)))
      else None
    case Goto(t) => if t == from then Some(Goto(to)) else None
    case GotoIfFalse(r, t) => if t == from then Some(GotoIfFalse(r, to)) else None
    case GotoIfTrue(r, t) => if t == from then Some(GotoIfTrue(r, to)) else None
    case _ => None
  }

  /** The targets with every `from` replaced by `to`. */
  function ReplaceAll(ts: seq<nat>, to: u16, from: u16): (r: seq<nat>)
    ensures |r| == |ts|
  {
    seq(|ts|, k requires 0 <= k < |ts| => if ts[k] == from then to else ts[k])
  }

  /** An instruction is redirected exactly when `from` is one of its
      targets; it then jumps to `to` wherever it jumped to `from`, keeps its
      other target, and keeps its kind and register operand. */
  lemma RedirectMeaning(i: Instruction, to: u16, from: u16)
    ensures Redirect(i, to, from).Some? <==> from in GetTargets(i)
    ensures Redirect(i, to, from).Some? ==>
      var j := Redirect(i, to, from).value;
      GetTargets(j) == ReplaceAll(GetTargets(i), to, from) &&
      Operands(j) == Operands(i) && IsJump(j)
  {
  }

  // ---------------------------------------------------------------------------
  // branch_targets

  /** `branch_targets` of a block with these instructions: the targets of
      the terminator, none for an empty block or a `Return`; any other last
      instruction panics. */
  function BranchTargets(insns: seq<Instruction>): Result<(Option<u16>, Option<u16>)>
  {
    if insns == [] then Success((None, None))
    else
      match insns[|insns| - 1]
      case ConditionalGoto(_, t, f) => Success((Some(t), Some(f)))
      case Goto(t) => Success((Some(t), None))
      case GotoIfFalse(_, t) => Success((Some(t), None))
      case GotoIfTrue(_, t) => Success((Some(t), None))
      case Return(_) => Success((None, None))
      case _ => Failure("Terminator not found")
  }

  function Present(p: (Option<u16>, Option<u16>)): seq<nat>
  {
    (if p.0.Some? then [p.0.value as nat] else []) + (if p.1.Some? then [p.1.value as nat] else [])
  }

  /** `branch_targets` and `get_targets` agree on the terminator, and
      `branch_targets` panics exactly when a non-empty block ends in neither
      a jump nor a `Return`. */
  lemma BranchTargetsAgree(insns: seq<Instruction>)
    ensures BranchTargets(insns).Failure? <==>
      insns != [] && !IsJump(insns[|insns| - 1]) && !insns[|insns| - 1].Return?
    ensures BranchTargets(insns).Success? && insns != [] ==>
      Present(BranchTargets(insns).value) == GetTargets(insns[|insns| - 1])
  {
  }

  // ---------------------------------------------------------------------------
  // The block

  class BasicBlock {
    var instructions: seq<Instruction>

    constructor (insns: seq<Instruction>)
      ensures instructions == insns
    {
      instructions := insns;
    }

    /** `join`: drops this block's terminator (if any) and appends the
        other block's instructions. */
    method Join(other: BasicBlock)
      requires other != this
      modifies this
      ensures instructions == DropLast(old(instructions)) + other.instructions
    {
      if |instructions| > 0 {
        instructions := instructions[..|instructions| - 1];
      }
      ghost var kept := instructions;
      var rest := other.instructions;
      var k := 0;
      while k < |rest|
        invariant 0 <= k <= |rest|
        invariant instructions == kept + rest[..k]
      {
        instructions := instructions + [rest[k]];
        k := k + 1;
        assert rest[..k] == rest[..k - 1] + [rest[k - 1]];
      }
      assert rest[..k] == rest;
    }

    /** `try_replace_branch_targets`: redirects the terminator from block
        `from` to block `to`; says whether anything changed. */
    method TryReplaceBranchTargets(to: u16, from: u16) returns (replaced: bool)
      modifies this
      ensures replaced <==>
        old(instructions) != [] && Redirect(old(instructions)[|old(instructions)| - 1], to, from).Some?
      ensures !replaced ==> instructions == old(instructions)
      ensures replaced ==>
        instructions == DropLast(old(instructions)) + [Redirect(old(instructions)[|old(instructions)| - 1], to, from).value]
    {
      if |instructions| == 0 {
        return false;
      }
      var last := |instructions| - 1;
      var r := Redirect(instructions[last], to, from);
      if r.None? {
        return false;
      }
      instructions := instructions[last := r.value];
      return true;
    }
  }

  function DropLast(s: seq<Instruction>): (r: seq<Instruction>)
    ensures s == [] ==> r == []
    ensures s != [] ==> r == s[..|s| - 1]
  {
    if s == [] then [] else s[..|s| - 1]
  }

  /** After a join the block ends as the joined block did, so it branches
      where that block branched. */
  lemma JoinTakesTerminator(mine: seq<Instruction>, other: seq<Instruction>)
    requires other != []
    ensures BranchTargets(DropLast(mine) + other) == BranchTargets(other)
  {
    var s := DropLast(mine) + other;
    assert s[|s| - 1] == other[|other| - 1];
  }

  /** Redirecting changes only the terminator's targets: the block's targets
      are the old ones with `from` replaced by `to`. */
  lemma RedirectTargets(insns: seq<Instruction>, to: u16, from: u16)
    requires insns != [] && Redirect(insns[|insns| - 1], to, from).Some?
    ensures var after := DropLast(insns) + [Redirect(insns[|insns| - 1], to, from).value];
      BranchTargets(after).Success? &&
      Present(BranchTargets(after).value) == ReplaceAll(GetTargets(insns[|insns| - 1]), to, from)
  {
    var j := Redirect(insns[|insns| - 1], to, from).value;
    var after := DropLast(insns) + [j];
    RedirectMeaning(insns[|insns| - 1], to, from);
    assert after[|after| - 1] == j;
    BranchTargetsAgree(after);
  }
}
