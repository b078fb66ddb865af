/** Execution contexts of the `jlightc` VM (`src/context.rs`): 128 registers
    of object pointers plus the stack, upvalues and link to the caller. */
module JlightcContext {
  import opened Wrappers
  import JlightcObject

  type Pointer = JlightcObject.Pointer

  const NUM_REGISTERS: nat := 128

  class Context {
    const registers: array<Pointer>
    var stack: seq<Pointer>
    var parent: Context?
    var this_: Pointer
    var upvalues: seq<Pointer>
    var instructionIndex: nat
    var blockIndex: nat
    var returnRegister: Option<nat>
    var terminateUponReturn: bool

    /** A context whose registers are all null. */
    constructor ()
      ensures registers.Length == NUM_REGISTERS && fresh(registers)
      ensures forall i :: 0 <= i < registers.Length ==> registers[i].Null?
      ensures stack == [] && upvalues == [] && parent == null
    {
      registers := new Pointer[NUM_REGISTERS](_ => JlightcObject.Null);
      stack := [];
      parent := null;
      this_ := JlightcObject.Null;
      upvalues := [];
      instructionIndex := 0;
      blockIndex := 0;
      returnRegister := Option.None;
      terminateUponReturn := false;
    }

    /** `get_register`. */
    function Register(r: nat): Pointer
      requires r < registers.Length
      reads registers
    {
      registers[r]
    }

    /** `set_register`: one register changes; an index past the 128
        registers is an out-of-bounds panic, and nothing changes. */
    method SetRegister(r: nat, v: Pointer) returns (res: Result<()>)
      modifies registers
      ensures res.Success? <==> r < registers.Length
      ensures res.Success? ==> registers[..] == old(registers[..])[r := v] && Register(r) == v
      ensures res.Failure? ==> registers[..] == old(registers[..])
    {
      if r >= registers.Length {
        return Failure("index out of bounds");
      }
      registers[r] := v;
      return Success(());
    }

    /** `each_pointer`: every register, null ones included, in order, and
        nothing else: neither the stack, the upvalues, `this` nor the
        callers. */
    method EachPointer() returns (visited: seq<Pointer>)
      ensures |visited| == registers.Length
      ensures forall i :: 0 <= i < registers.Length ==> visited[i] == Register(i)
    {
      visited := [];
      for i := 0 to registers.Length
        invariant visited == registers[..i]
      {
        visited := visited + [registers[i]];
      }
    }
  }

  function Contexts(chain: seq<Context>): set<object>
  {
    (set i | 0 <= i < |chain| :: chain[i]) + (set i | 0 <= i < |chain| :: chain[i].registers)
  }

  /** `chain` is a context followed by its callers (the boxes reached
      through `parent`), up to the root; a context occurs in it once. */
  ghost predicate ContextChain(chain: seq<Context>)
    reads Contexts(chain)
  {
    |chain| >= 1 &&
    (forall i, j :: 0 <= i < j < |chain| ==> chain[i] != chain[j]) &&
    (forall i :: 0 <= i < |chain| - 1 ==> chain[i].parent == chain[i + 1]) &&
    chain[|chain| - 1].parent == null
  }

  /** A context of a chain has no parent exactly when it is the root. */
  lemma ChainRoot(chain: seq<Context>)
    requires ContextChain(chain)
    ensures chain[0].parent == null <==> |chain| == 1
  {
    if |chain| > 1 {
      assert chain[0].parent == chain[1];
    }
  }
}
