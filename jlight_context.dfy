/** Execution contexts of the jlight VM (`jlight-vm/src/runtime/context.rs`):
    a fixed file of 48 registers, an operand stack, the upvalues, the
    module's globals and a link to the calling context. */
module JlightContext {
  import opened Wrappers
  import opened RegisterFile
  import JlightObject

  type Pointer = JlightObject.Pointer

  const NUM_REGISTERS: nat := 48

  predicate NotNull(p: Pointer) { !p.Null? }

  class Context {
    var ip: nat
    var bp: nat
    const registers: array<Pointer>
    var stack: seq<Pointer>
    var upvalues: seq<Pointer>
    var this_: Pointer
    var returnRegister: Option<nat>
    var terminateUponReturn: bool
    /** The module's globals; none when the module's pointer is null. */
    var globals: Option<seq<Pointer>>
    var parent: Context?

    /** `Context::new`. */
    constructor ()
      ensures ip == 0 && bp == 0
      ensures registers.Length == NUM_REGISTERS && fresh(registers)
      ensures forall i :: 0 <= i < registers.Length ==> registers[i].Null?
      ensures stack == [] && upvalues == [] && this_.Null?
      ensures returnRegister.None? && !terminateUponReturn && globals.None? && parent == null
    {
      ip := 0;
      bp := 0;
      registers := new Pointer[NUM_REGISTERS](_ => JlightObject.Null);
      stack := [];
      upvalues := [];
      this_ := JlightObject.Null;
      returnRegister := Option.None;
      terminateUponReturn := false;
      globals := Option.None;
      parent := null;
    }

    /** `get_register`. */
    function Register(r: nat): Pointer
      requires r < registers.Length
      reads registers
    {
      registers[r]
    }

    /** `set_register`: one register changes; an index past the 48
        registers is an out-of-bounds panic, and nothing changes. */
    method SetRegister(r: nat, v: Pointer) returns (res: Result<()>)
      modifies registers
      ensures res.Success? <==> r < registers.Length
      ensures res.Success? ==> registers[..] == old(registers[..])[r := v] && Register(r) == v
      ensures res.Failure? ==> registers[..] == old(registers[..])
    {
      if r >= registers.Length {
        return Failure("index out of bounds");
      }
      registers[r] := v;
      return Success(());
    }

    /** `move_`: copies `from` into `to`; `from` keeps its value. Either
        index past the registers panics, and nothing changes. */
    method Move(to: nat, from: nat) returns (res: Result<()>)
      modifies registers
      ensures res.Success? <==> to < registers.Length && from < registers.Length
      ensures res.Success? ==> registers[..] == old(registers[..])[to := old(registers[from])]
      ensures res.Success? ==> Register(to) == old(Register(from)) && Register(from) == old(Register(from))
      ensures res.Failure? ==> registers[..] == old(registers[..])
    {
      if to >= registers.Length || from >= registers.Length {
        return Failure("index out of bounds");
      }
      registers[to] := registers[from];
      return Success(());
    }

    /** `swap_registers` as written: `to` is written twice, the second time
        with its own old value. Reading either register past the end is the
        out-of-bounds panic of `get_register`, and nothing changes then. */
    method SwapRegisters(to: nat, from: nat) returns (res: Result<()>)
      modifies registers
      ensures res.Success? <==> to < registers.Length && from < registers.Length
      ensures res.Success? ==> registers[..] == SwapAsWritten(old(registers[..]), to, from)
      ensures res.Failure? ==> registers[..] == old(registers[..])
    {
      if to >= registers.Length || from >= registers.Length {
        return Failure("index out of bounds");
      }
      var tmp := Register(to);
      var fromV := Register(from);
      var first := SetRegister(to, fromV);
      var second := SetRegister(to, tmp);
      return Success(());
    }

    /** `swap_registers` as evidently intended, with the same panic on a
        register past the end. */
    method SwapRegistersCorrected(to: nat, from: nat) returns (res: Result<()>)
      modifies registers
      ensures res.Success? <==> to < registers.Length && from < registers.Length
      ensures res.Success? ==> registers[..] == Swapped(old(registers[..]), to, from)
      ensures res.Failure? ==> registers[..] == old(registers[..])
    {
      if to >= registers.Length || from >= registers.Length {
        return Failure("index out of bounds");
      }
      var tmp := Register(to);
      var fromV := Register(from);
      var first := SetRegister(to, fromV);
      var second := SetRegister(from, tmp);
      return Success(());
    }

    /** The pointers `each_pointer` reports for this context alone: the
        non-null registers, stack entries and upvalues, then every global. */
    function OwnPointers(): seq<Pointer>
      reads this, registers
    {
      Filter(registers[..], NotNull) + Filter(stack, NotNull) + Filter(upvalues, NotNull) +
      (if globals.Some? then globals.value else [])
    }
  }

  /** The register file after `swap_registers` as written. */
  function SwapAsWritten(regs: seq<Pointer>, to: nat, from: nat): seq<Pointer>
    requires to < |regs| && from < |regs|
  {
    regs[to := regs[from]][to := regs[to]]
  }

  /** As written, the swap changes nothing; whenever the two registers hold
      different values this differs from a swap. */
  lemma SwapAsWrittenChangesNothing(regs: seq<Pointer>, to: nat, from: nat)
    requires to < |regs| && from < |regs|
    ensures SwapAsWritten(regs, to, from) == regs
    ensures regs[to] != regs[from] ==> SwapAsWritten(regs, to, from) != Swapped(regs, to, from)
  {
    SwappedMeaning(regs, to, from);
    if regs[to] != regs[from] {
      assert SwapAsWritten(regs, to, from)[to] != Swapped(regs, to, from)[to];
    }
  }

  function Contexts(chain: seq<Context>): set<object>
  {
    (set i | 0 <= i < |chain| :: chain[i]) + (set i | 0 <= i < |chain| :: chain[i].registers)
  }

  /** `chain` is a context followed by its callers, up to the root; a
      context occurs in it once. */
  ghost predicate ContextChain(chain: seq<Context>)
    reads Contexts(chain)
  {
    |chain| >= 1 &&
    (forall i, j :: 0 <= i < j < |chain| ==> chain[i] != chain[j]) &&
    (forall i :: 0 <= i < |chain| - 1 ==> chain[i].parent == chain[i + 1]) &&
    chain[|chain| - 1].parent == null
  }

  /** A context of a chain has no parent exactly when it is the root. */
  lemma ChainRoot(chain: seq<Context>)
    requires ContextChain(chain)
    ensures chain[0].parent == null <==> |chain| == 1
  {
    if |chain| > 1 {
      assert chain[0].parent == chain[1];
    }
  }

  /** The pointers reported for the contexts of `chain`, in order. */
  function AllPointers(chain: seq<Context>): seq<Pointer>
    reads Contexts(chain)
  {
    if chain == [] then []
    else AllPointers(chain[..|chain| - 1]) + chain[|chain| - 1].OwnPointers()
  }

  /** `each_pointer`: the pointers of the context, then of each caller. */
  method EachPointer(c: Context, ghost chain: seq<Context>) returns (visited: seq<Pointer>)
    requires ContextChain(chain) && chain[0] == c
    ensures visited == AllPointers(chain)
  {
    visited := [];
    var current: Context? := c;
    ghost var k := 0;
    while current != null
      invariant 0 <= k <= |chain|
      invariant current == if k < |chain| then chain[k] else null
      invariant visited == AllPointers(chain[..k])
      decreases |chain| - k
    {
      assert chain[..k + 1][..k] == chain[..k];
      visited := visited + current.OwnPointers();
      current := current.parent;
      k := k + 1;
    }
    assert chain[..k] == chain;
  }

  /** Every non-null register of every context in the chain is reported. */
  lemma {:induction false} RegistersReported(chain: seq<Context>, i: nat, r: nat)
    requires i < |chain| && r < chain[i].registers.Length && !chain[i].registers[r].Null?
    ensures chain[i].registers[r] in AllPointers(chain)
    decreases |chain|
  {
    var last := chain[|chain| - 1];
    if i == |chain| - 1 {
      FilterMembers(last.registers[..], NotNull);
      assert last.registers[..][r] == last.registers[r];
    } else {
      RegistersReported(chain[..|chain| - 1], i, r);
    }
  }
}
