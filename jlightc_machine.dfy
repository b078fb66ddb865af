/** The interpreter loop of the `jlightc` VM (`src/runtime/machine.rs`): the
    fetch that advances the instruction and block indices, the `Move`,
    `CatchBlock`, `Goto`, `Return` and `Safepoint` arms, and `throw`, which
    unwinds to the most recent catch entry. */
module JlightcMachine {
  import opened Wrappers
  import opened JlightcContext
  import opened JlightcProcess
  import Ints
  import Safepoint

  // ---------------------------------------------------------------------------
  // Fetching

  /** The position after a fetch, as written: the instruction index always
      moves on, and the block index moves on once the new instruction index
      reaches the block's length; the instruction index is not reset. */
  function Advance(index: nat, bindex: nat, blockLen: nat): (nat, nat)
  {
    (index + 1, if index + 1 >= blockLen then bindex + 1 else bindex)
  }

  /** The position after `n` fetches inside one block of length `blockLen`. */
  function Fetches(index: nat, bindex: nat, blockLen: nat, n: nat, corrected: bool): (nat, nat)
    decreases n
  {
    if n == 0 then (index, bindex)
    else
      var next := if corrected then AdvanceCorrected(index, bindex, blockLen)
                  else Advance(index, bindex, blockLen);
      Fetches(next.0, next.1, blockLen, n - 1, corrected)
  }

  /** As written, running through a block from its start moves on to the
      next block with the instruction index equal to the length of the
      block just run, not 0. */
  lemma {:induction false} AsWrittenKeepsIndex(blockLen: nat, bindex: nat, n: nat)
    requires 0 < n <= blockLen
    ensures Fetches(0, bindex, blockLen, n, false) ==
      (n, if n == blockLen then bindex + 1 else bindex)
    decreases n
  {
    if n > 1 {
      AsWrittenKeepsIndex(blockLen, bindex, n - 1);
      AsWrittenFetchesSplit(0, bindex, blockLen, n - 1);
    }
  }

  lemma {:induction false} AsWrittenFetchesSplit(index: nat, bindex: nat, blockLen: nat, n: nat)
    ensures var p := Fetches(index, bindex, blockLen, n, false);
      Fetches(index, bindex, blockLen, n + 1, false) == Advance(p.0, p.1, blockLen)
    decreases n
  {
    if n > 0 {
      var next := Advance(index, bindex, blockLen);
      AsWrittenFetchesSplit(next.0, next.1, blockLen, n - 1);
    }
  }

  /** The counterexample: two one-instruction blocks. After the only
      instruction of block 0 the position is instruction 1 of block 1,
      which does not exist, so the fetch of block 1 is out of range. */
  lemma FallThroughSkipsNextBlock()
    ensures Advance(0, 0, 1) == (1, 1)
    ensures var p := Advance(0, 0, 1); p.1 == 1 && !(p.0 < 1)
  {
  }

  /** The fetch as evidently intended: moving on to the next block starts
      at its first instruction. */
  function AdvanceCorrected(index: nat, bindex: nat, blockLen: nat): (nat, nat)
  {
    if index + 1 >= blockLen then (0, bindex + 1) else (index + 1, bindex)
  }

  /** With the corrected fetch, the instructions of a block are fetched in
      order from its start, and after the last one the next block starts at
      instruction 0. */
  lemma {:induction false} CorrectedWalksBlock(blockLen: nat, bindex: nat, n: nat)
    requires n <= blockLen
    ensures Fetches(0, bindex, blockLen, n, true) ==
      if n == blockLen && n > 0 then (0, bindex + 1) else (n, bindex)
    decreases n
  {
    if n > 0 {
      CorrectedWalksBlock(blockLen, bindex, n - 1);
      CorrectedFetchesSplit(0, bindex, blockLen, n - 1);
    }
  }

  lemma {:induction false} CorrectedFetchesSplit(index: nat, bindex: nat, blockLen: nat, n: nat)
    ensures var p := Fetches(index, bindex, blockLen, n, true);
      Fetches(index, bindex, blockLen, n + 1, true) == AdvanceCorrected(p.0, p.1, blockLen)
    decreases n
  {
    if n > 0 {
      var next := AdvanceCorrected(index, bindex, blockLen);
      CorrectedFetchesSplit(next.0, next.1, blockLen, n - 1);
    }
  }

  // ---------------------------------------------------------------------------
  // Throwing

  /** The error `throw` reports once no catch entry is left. */
  function TopLevelMessage(id: nat): string
  {
    "A thrown value reached top-level in process " + Ints.Hex(id)
  }

  /** `Machine::throw`. The catch entries belong to the process, not to a
      context: with an entry present, the most recent one is popped and the
      current context resumes at its block with the value in its register.
      Without one, contexts are popped until the top one, and the error
      names the process. */
  method Throw(process: Process, value: Pointer, id: nat, ghost chain: seq<Context>)
    returns (r: Result<()>)
    requires ContextChain(chain) && chain[0] == process.context
    requires process.catchEntries != [] ==>
      process.catchEntries[|process.catchEntries| - 1].register < NUM_REGISTERS
    requires chain[0].registers.Length == NUM_REGISTERS
    modifies process`context, process`catchEntries, Contexts(chain)
    ensures old(process.catchEntries) != [] ==>
      var entry := old(process.catchEntries)[|old(process.catchEntries)| - 1];
      r == Success(()) && process.context == chain[0] &&
      process.catchEntries == old(process.catchEntries)[..|old(process.catchEntries)| - 1] &&
      chain[0].blockIndex == entry.jumpTo &&
      chain[0].registers[..] == old(chain[0].registers[..])[entry.register := value]
    ensures old(process.catchEntries) == [] ==>
      r == Failure(TopLevelMessage(id)) && process.context == chain[|chain| - 1] &&
      process.catchEntries == []
  {
    ghost var k := 0;
    while true
      invariant 0 <= k < |chain| && process.context == chain[k]
      invariant ContextChain(chain[k..])
      invariant k > 0 ==> process.catchEntries == old(process.catchEntries) == []
      invariant process.catchEntries == old(process.catchEntries)
      invariant chain[0].registers[..] == old(chain[0].registers[..])
      decreases |chain| - k
    {
      var context := process.context;
      if process.catchEntries != [] {
        var entry := process.catchEntries[|process.catchEntries| - 1];
        process.catchEntries := process.catchEntries[..|process.catchEntries| - 1];
        context.blockIndex := entry.jumpTo;
        var stored := context.SetRegister(entry.register, value);
        return Success(());
      }
      var isTop := process.PopContext(chain[k..]);
      if isTop {
        assert chain[k..][0] == chain[k];
        return Failure(TopLevelMessage(id));
      }
      assert chain[k..][1..] == chain[k + 1..];
      k := k + 1;
    }
  }

  // ---------------------------------------------------------------------------
  // The interpreter loop

  class Machine {
    const process: Process
    /** The instruction index and block index of the running code. */
    var index: nat
    var bindex: nat
    var reductions: nat

    /** The start of `run`: the budget from the configuration, the
        position restored from the current context (`reset_context!`). */
    constructor (p: Process, configReductions: nat)
      ensures process == p && reductions == configReductions
      ensures index == p.context.instructionIndex && bindex == p.context.blockIndex
    {
      process := p;
      reductions := configReductions;
      index := p.context.instructionIndex;
      bindex := p.context.blockIndex;
    }

    /** `reset_context!`: the position of the current context. */
    method ResetContext()
      modifies this`index, this`bindex
      ensures index == process.context.instructionIndex && bindex == process.context.blockIndex
    {
      index := process.context.instructionIndex;
      bindex := process.context.blockIndex;
    }

    /** The fetch at the top of the loop, in a block of `blockLen`
        instructions; an index past the block is an out-of-bounds panic,
        and the position does not move. */
    method Fetch(blockLen: nat) returns (r: Result<()>)
      modifies this`index, this`bindex
      ensures r.Success? <==> old(index) < blockLen
      ensures r.Success? ==> (index, bindex) == Advance(old(index), old(bindex), blockLen)
      ensures r.Success? ==> index == old(index) + 1 && (bindex == old(bindex) + 1 <==> index == blockLen)
      ensures r.Failure? ==> index == old(index) && bindex == old(bindex)
    {
      if index >= blockLen {
        return Failure("index out of bounds");
      }
      r := Success(());
      index := index + 1;
      if index >= blockLen {
        bindex := bindex + 1;
      }
    }

    /** `Move(to, from)`: copies one register of the current context; an
        index past the registers panics, and nothing changes. */
    method Move(to: nat, from: nat) returns (res: Result<()>)
      modifies process.context.registers
      ensures res.Success? <==>
        to < process.context.registers.Length && from < process.context.registers.Length
      ensures res.Success? ==>
        process.context.registers[..] ==
        old(process.context.registers[..])[to := old(process.context.registers[from])]
      ensures res.Failure? ==> process.context.registers[..] == old(process.context.registers[..])
    {
      var context := process.context;
      if from >= context.registers.Length {
        return Failure("index out of bounds");
      }
      res := context.SetRegister(to, context.Register(from));
    }

    /** `CatchBlock(r, j)`: a catch entry for register `r` resuming at block
        `j` is pushed. */
    method CatchBlock(r: nat, jumpTo: nat)
      modifies process`catchEntries
      ensures process.catchEntries == old(process.catchEntries) + [CatchEntry(jumpTo, r)]
    {
      process.catchEntries := process.catchEntries + [CatchEntry(jumpTo, r)];
    }

    /** `Goto(to)`: the block index changes; the instruction index does not. */
    method Goto(to: nat)
      modifies this`bindex
      ensures bindex == to && index == old(index)
    {
      bindex := to;
    }

    /** `safepoint_and_reduce!`: the result says whether `run` returns. */
    method SafepointAndReduce(gcRequested: bool) returns (leave: bool)
      modifies this`reductions
      ensures leave <==> gcRequested || old(reductions) == 0
      ensures (Safepoint.Reduce(old(reductions), gcRequested).0 != Safepoint.Continue) == leave
      ensures reductions == Safepoint.Reduce(old(reductions), gcRequested).1
    {
      var r := Safepoint.Reduce(reductions, gcRequested);
      reductions := r.1;
      leave := r.0 != Safepoint.Continue;
    }

    /** `Return(r)`. A context that terminates upon return ends the run at
        once. Otherwise the value goes into the caller's return register,
        when there is one, and the context is popped: at the top context the
        run ends, else the caller resumes where it was, after a safepoint. */
    method Return(r: nat, gcRequested: bool, ghost chain: seq<Context>) returns (leave: bool)
      requires ContextChain(chain) && chain[0] == process.context
      requires forall i :: 0 <= i < |chain| ==> chain[i].registers.Length == NUM_REGISTERS
      requires r < NUM_REGISTERS
      requires chain[0].returnRegister.Some? ==> chain[0].returnRegister.value < NUM_REGISTERS
      modifies this`index, this`bindex, this`reductions, process`context, process.context`parent
      modifies if |chain| > 1 then {chain[1].registers} else {}
      ensures old(chain[0].terminateUponReturn) ==> leave && process.context == chain[0]
      ensures !old(chain[0].terminateUponReturn) && |chain| == 1 ==> leave && process.context == chain[0]
      ensures !old(chain[0].terminateUponReturn) && |chain| > 1 ==>
        process.context == chain[1] && ContextChain(chain[1..]) &&
        index == chain[1].instructionIndex && bindex == chain[1].blockIndex &&
        (leave <==> gcRequested || old(reductions) == 0) &&
        chain[1].registers[..] ==
          if old(chain[0].returnRegister).Some?
          then old(chain[1].registers[..])[old(chain[0].returnRegister).value := old(chain[0].registers[r])]
          else old(chain[1].registers[..])
    {
      var context := process.context;
      if context.terminateUponReturn {
        return true;
      }
      var result := context.Register(r);
      ChainRoot(chain);
      if context.returnRegister.Some? && context.parent != null {
        var stored := context.parent.SetRegister(context.returnRegister.value, result);
      }
      var isTop := process.PopContext(chain);
      if isTop {
        return true;
      }
      ResetContext();
      leave := SafepointAndReduce(gcRequested);
    }
  }
}
