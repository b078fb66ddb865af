/** The tracing interpreter of the jlight VM
    (`jlight-vm/src/runtime/fusion/tracing_interpreter.rs`): while a function
    runs, the instructions it executes are recorded block by block into a
    `TraceInfo`, for a later fused compilation. A block stops being recorded
    once the run has left it by a jump. */
module JlightTracing {
  /** The recorded instructions this model distinguishes. */
  datatype FusionInsn =
    | GuardNumber(r: nat)
    | AddF(dst: nat, lhs: nat, rhs: nat)
    | SubF(dst: nat, lhs: nat, rhs: nat)
    | MulF(dst: nat, lhs: nat, rhs: nat)
    | Goto(block: nat)
    | Other(code: nat)

  class TraceInfo {
    var invocations: nat
    /** One recorded block per block of the traced code. */
    var trace: seq<seq<FusionInsn>>
    /** The blocks the run has left by a jump. */
    var complete: set<nat>
    var currentBlock: nat

    /** A new trace (`or_insert` in `run_tracing`): one empty block per code
        block, nothing complete, recording starts at block 0. */
    constructor (codeLen: nat)
      ensures |trace| == codeLen && forall b :: 0 <= b < codeLen ==> trace[b] == []
      ensures complete == {} && currentBlock == 0 && invocations == 0
    {
      invocations := 0;
      trace := seq(codeLen, _ => []);
      complete := {};
      currentBlock := 0;
    }

    /** `write`: appended to the current block unless that block is
        complete (a block out of range panics). */
    method Write(x: FusionInsn)
      requires currentBlock !in complete ==> currentBlock < |trace|
      modifies this
      ensures complete == old(complete) && currentBlock == old(currentBlock)
      ensures trace == if currentBlock in complete then old(trace)
                       else old(trace)[currentBlock := old(trace)[currentBlock] + [x]]
      ensures currentBlock !in complete ==> trace[currentBlock] != []
      ensures old(IsComplete()) ==> IsComplete()
    {
      if currentBlock !in complete {
        trace := trace[currentBlock := trace[currentBlock] + [x]];
      }
    }

    /** `complete()`: every block has recorded something. */
    predicate IsComplete()
      reads this
    {
      forall b :: 0 <= b < |trace| ==> trace[b] != []
    }

    /** The flag `run_tracing` returns: every block has been left by a jump. */
    predicate AllLeft(codeLen: nat)
      reads this
    {
      |complete| == codeLen
    }

    /** `move_forward`. */
    method MoveForward()
      modifies this
      ensures currentBlock == old(currentBlock) + 1
      ensures trace == old(trace) && complete == old(complete)
    {
      currentBlock := currentBlock + 1;
    }

    /** `goto`: the block being left is complete, recording moves to `x`. */
    method Goto(x: nat)
      modifies this
      ensures complete == old(complete) + {old(currentBlock)} && currentBlock == x
      ensures trace == old(trace)
    {
      complete := complete + {currentBlock};
      currentBlock := x;
    }

    /** `Goto(block)` in `run_tracing`: the jump is recorded in the block it
        leaves, which is then complete. */
    method TraceGoto(block: nat)
      requires currentBlock !in complete ==> currentBlock < |trace|
      modifies this
      ensures currentBlock == block && complete == old(complete) + {old(currentBlock)}
      ensures trace == if old(currentBlock) in old(complete) then old(trace)
                       else old(trace)[old(currentBlock) := old(trace)[old(currentBlock)] + [FusionInsn.Goto(block)]]
    {
      Write(FusionInsn.Goto(block));
      Goto(block);
    }

    /** A block, once left, records nothing more: after `goto`, writing
        anything leaves the trace of the left block as it was. */
    method WriteAfterGoto(x: nat, insn: FusionInsn)
      requires x !in complete ==> x < |trace|
      requires currentBlock < |trace|
      modifies this
      ensures |trace| == |old(trace)| && old(currentBlock) in complete
      ensures x != old(currentBlock) ==> trace[old(currentBlock)] == old(trace)[old(currentBlock)]
    {
      ghost var left := currentBlock;
      Goto(x);
      Write(insn);
      assert left in complete;
      if x != left && x !in complete {
        assert trace[left] == old(trace)[left];
      }
    }
  }

  /** The block indices of a function with `n` blocks. */
  function Blocks(n: nat): (r: set<nat>)
    ensures |r| == n
    ensures forall b: nat :: b in r <==> b < n
  {
    if n == 0 then {} else
      var rest := Blocks(n - 1);
      assert n - 1 !in rest;
      rest + {n - 1}
  }

  /** The flag `run_tracing` returns compares the number of blocks left by
      a jump with the number of blocks: when every block left is a block of
      the function, the flag holds exactly when every block has been left. */
  lemma AllLeftIffEveryBlock(complete: set<nat>, codeLen: nat)
    requires forall b :: b in complete ==> b < codeLen
    ensures |complete| == codeLen <==> forall b :: 0 <= b < codeLen ==> b in complete
  {
    var all := Blocks(codeLen);
    assert complete <= all;
    if |complete| == codeLen {
      assert all == complete + (all - complete);
      assert all - complete == {};
    }
  }

  /** The numeric operations whose recording differs only in the opcode. */
  datatype NumOp = Add | Sub | Mul

  /** What `run_tracing` records for a numeric `Add`, `Sub` or `Mul` on two
      tagged numbers, as written: two guards, then the operation, where `Sub`
      records `MulF`. */
  function NumericRecord(op: NumOp, r0: nat, r1: nat, r2: nat): seq<FusionInsn>
  {
    [GuardNumber(r1), GuardNumber(r2),
     match op
     case Add => AddF(r0, r1, r2)
     case Sub => MulF(r0, r1, r2)
     case Mul => MulF(r0, r1, r2)]
  }

  /** As written, a traced subtraction cannot be told from a traced
      multiplication. */
  lemma SubRecordedAsMul(r0: nat, r1: nat, r2: nat)
    ensures NumericRecord(Sub, r0, r1, r2) == NumericRecord(Mul, r0, r1, r2)
    ensures NumericRecord(Sub, r0, r1, r2)[2] != SubF(r0, r1, r2)
  {
  }

  /** The record as evidently intended: `Sub` records `SubF`. */
  function NumericRecordCorrected(op: NumOp, r0: nat, r1: nat, r2: nat): seq<FusionInsn>
  {
    [GuardNumber(r1), GuardNumber(r2),
     match op
     case Add => AddF(r0, r1, r2)
     case Sub => SubF(r0, r1, r2)
     case Mul => MulF(r0, r1, r2)]
  }

  /** Corrected, both operands are guarded before the operation, and the
      record names the operation: distinct operations leave distinct
      records. */
  lemma CorrectedRecordDistinguishes(op: NumOp, op2: NumOp, r0: nat, r1: nat, r2: nat)
    ensures |NumericRecordCorrected(op, r0, r1, r2)| == 3
    ensures NumericRecordCorrected(op, r0, r1, r2)[..2] == [GuardNumber(r1), GuardNumber(r2)]
    ensures NumericRecordCorrected(op, r0, r1, r2) == NumericRecordCorrected(op2, r0, r1, r2) <==> op == op2
  {
  }

  /** Records a numeric operation on two tagged numbers into the trace. */
  method RecordNumeric(t: TraceInfo, op: NumOp, r0: nat, r1: nat, r2: nat)
    requires t.currentBlock !in t.complete ==> t.currentBlock < |t.trace|
    modifies t
    ensures t.currentBlock == old(t.currentBlock) && t.complete == old(t.complete)
    ensures t.trace == if t.currentBlock in t.complete then old(t.trace)
      else old(t.trace)[t.currentBlock := old(t.trace)[t.currentBlock] + NumericRecordCorrected(op, r0, r1, r2)]
  {
    var record := NumericRecordCorrected(op, r0, r1, r2);
    t.Write(record[0]);
    t.Write(record[1]);
    t.Write(record[2]);
    if t.currentBlock !in t.complete {
      var b := t.currentBlock;
      assert t.trace[b] == old(t.trace)[b] + [record[0]] + [record[1]] + [record[2]];
      assert old(t.trace)[b] + [record[0]] + [record[1]] + [record[2]] == old(t.trace)[b] + record;
    }
  }
}
