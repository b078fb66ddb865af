/** Execution contexts of the `waffle` VM (`vm/src/interpreter/context.rs`):
    48 NaN-boxed registers, an operand stack, the module's globals, the
    running function and a link to the calling context. */
module WaffleContext {
  import opened Wrappers
  import opened RegisterFile
  import opened NanBox
  import WaffleCell

  type CellPointer = WaffleCell.CellPointer

  const NUM_REGISTERS: nat := 48

  /** A slot `trace` hands to the collector: a value's payload or the
      running function. */
  datatype Root = Slot(v: Value) | Function(p: CellPointer)

  function Slots(s: seq<Value>): (r: seq<Root>)
    ensures |r| == |s| && forall i :: 0 <= i < |s| ==> r[i] == Slot(s[i])
  {
    seq(|s|, i requires 0 <= i < |s| => Slot(s[i]))
  }

  class Context {
    const registers: array<Value>
    var stack: seq<Value>
    /** The globals of the context's module. */
    var globals: seq<Value>
    var parent: Context?
    var index: nat
    var bindex: nat
    var func: CellPointer

    /** `Context::new`: every register holds `Value::from(VTag::Undefined)`,
        the function pointer is null. */
    constructor ()
      ensures registers.Length == NUM_REGISTERS && fresh(registers)
      ensures forall i :: 0 <= i < registers.Length ==> IsUndefined(registers[i])
      ensures stack == [] && globals == [] && parent == null && index == 0 && bindex == 0
      ensures func.cell == null && !func.permanent
    {
      registers := new Value[NUM_REGISTERS](_ => FromTag(Undefined));
      stack := [];
      globals := [];
      parent := null;
      index := 0;
      bindex := 0;
      func := WaffleCell.CellPointer(null, false);
    }

    /** A context holding what `c` holds, in storage of its own: the
        allocation `Ptr::new` makes for a context moved out of `c`. */
    constructor CopyOf(c: Context)
      ensures fresh(registers) && registers[..] == c.registers[..]
      ensures stack == c.stack && globals == c.globals && parent == c.parent
      ensures index == c.index && bindex == c.bindex && func == c.func
    {
      var copied := new Value[c.registers.Length];
      forall i | 0 <= i < copied.Length {
        copied[i] := c.registers[i];
      }
      registers := copied;
      stack := c.stack;
      globals := c.globals;
      parent := c.parent;
      index := c.index;
      bindex := c.bindex;
      func := c.func;
    }

    /** The context is in the state `Context::new` leaves it: every
        register undefined, nothing on the stack, no globals, no parent,
        both indices zero and the null function. */
    ghost predicate IsNew()
      reads this, registers
    {
      (forall i :: 0 <= i < registers.Length ==> IsUndefined(registers[i])) &&
      stack == [] && globals == [] && parent == null && index == 0 && bindex == 0 &&
      func.cell == null && !func.permanent
    }

    /** `Ptr::replace(Context::new())` on a pointer to this context: its
        contents move to a new allocation, which is returned, and the
        context itself is left as `Context::new` makes one. */
    method ReplaceWithNew() returns (moved: Context)
      modifies this, registers
      ensures fresh(moved) && fresh(moved.registers) && moved.registers.Length == registers.Length
      ensures moved.registers[..] == old(registers[..]) && moved.stack == old(stack)
      ensures moved.globals == old(globals) && moved.parent == old(parent)
      ensures moved.index == old(index) && moved.bindex == old(bindex) && moved.func == old(func)
      ensures IsNew()
    {
      moved := new Context.CopyOf(this);
      forall i | 0 <= i < registers.Length {
        registers[i] := FromTag(Undefined);
      }
      stack := [];
      globals := [];
      parent := null;
      index := 0;
      bindex := 0;
      func := WaffleCell.CellPointer(null, false);
    }

    /** `get_register`. */
    function Register(r: nat): Value
      requires r < registers.Length
      reads registers
    {
      registers[r]
    }

    /** `set_register`: one register changes; an index past the 48
        registers is an out-of-bounds panic, and nothing changes. */
    method SetRegister(r: nat, v: Value) returns (res: Result<()>)
      modifies registers
      ensures res.Success? <==> r < registers.Length
      ensures res.Success? ==> registers[..] == old(registers[..])[r := v] && Register(r) == v
      ensures res.Failure? ==> registers[..] == old(registers[..])
    {
      if r >= registers.Length {
        return Failure("index out of bounds");
      }
      registers[r] := v;
      return Success(());
    }

    /** `move_registers`: despite its name, exchanges the two registers;
        either index past the registers panics, and nothing changes. */
    method MoveRegisters(r0: nat, r1: nat) returns (res: Result<()>)
      modifies registers
      ensures res.Success? <==> r0 < registers.Length && r1 < registers.Length
      ensures res.Success? ==> registers[..] == Swapped(old(registers[..]), r0, r1)
      ensures res.Failure? ==> registers[..] == old(registers[..])
    {
      if r0 >= registers.Length || r1 >= registers.Length {
        return Failure("index out of bounds");
      }
      var tmp := Register(r0);
      registers[r0] := registers[r1];
      registers[r1] := tmp;
      return Success(());
    }

    /** What `trace` reports for this context alone, with the cell test
        passed in: the registers, stack entries and globals that pass it,
        then the function. */
    function OwnRoots(isCell: Value -> bool): seq<Root>
      reads this, registers
    {
      Slots(Filter(registers[..], isCell)) + Slots(Filter(stack, isCell)) +
      Slots(Filter(globals, isCell)) + [Function(func)]
    }
  }

  function Contexts(chain: seq<Context>): set<object>
  {
    (set i | 0 <= i < |chain| :: chain[i]) + (set i | 0 <= i < |chain| :: chain[i].registers)
  }

  /** `chain` is a context followed by its callers, up to the root; a
      context occurs in it once. */
  ghost predicate ContextChain(chain: seq<Context>)
    reads Contexts(chain)
  {
    |chain| >= 1 &&
    (forall i, j :: 0 <= i < j < |chain| ==> chain[i] != chain[j]) &&
    (forall i :: 0 <= i < |chain| - 1 ==> chain[i].parent == chain[i + 1]) &&
    chain[|chain| - 1].parent == null
  }

  /** What stays linked of `chain` once `c` loses its parent: the chain up
      to and including `c` when `c` is on it, the whole chain otherwise. */
  function UpTo(chain: seq<Context>, c: Context): (r: seq<Context>)
    ensures |r| <= |chain| && r == chain[..|r|]
    ensures chain != [] ==> r != []
    ensures c in chain ==> r[|r| - 1] == c
    ensures c !in chain ==> r == chain
    ensures forall i :: 0 <= i < |r| - 1 ==> r[i] != c
  {
    if chain == [] then []
    else if chain[0] == c then [c]
    else [chain[0]] + UpTo(chain[1..], c)
  }

  /** A context of a chain has no parent exactly when it is the root. */
  lemma ChainRoot(chain: seq<Context>)
    requires ContextChain(chain)
    ensures chain[0].parent == null <==> |chain| == 1
  {
    if |chain| > 1 {
      assert chain[0].parent == chain[1];
    }
  }

  /** The roots of the contexts of `chain`, in order. */
  function AllRoots(chain: seq<Context>, isCell: Value -> bool): seq<Root>
    reads Contexts(chain)
  {
    if chain == [] then []
    else AllRoots(chain[..|chain| - 1], isCell) + chain[|chain| - 1].OwnRoots(isCell)
  }

  /** `trace`, with `is_cell` as written. */
  method Trace(c: Context, ghost chain: seq<Context>) returns (visited: seq<Root>)
    requires ContextChain(chain) && chain[0] == c
    ensures visited == AllRoots(chain, IsCell)
  {
    visited := [];
    var current: Context? := c;
    ghost var k := 0;
    while current != null
      invariant 0 <= k <= |chain|
      invariant current == if k < |chain| then chain[k] else null
      invariant visited == AllRoots(chain[..k], IsCell)
      decreases |chain| - k
    {
      assert chain[..k + 1][..k] == chain[..k];
      visited := visited + current.OwnRoots(IsCell);
      current := current.parent;
      k := k + 1;
    }
    assert chain[..k] == chain;
  }

  /** With `is_cell` as written, a context reports every register, stack
      entry and global, numbers, booleans and undefined included. */
  lemma TraceReportsImmediates(c: Context)
    ensures c.OwnRoots(IsCell) ==
      Slots(c.registers[..]) + Slots(c.stack) + Slots(c.globals) + [Function(c.func)]
  {
    forall v ensures IsCell(v) {
      IsCellAlwaysHolds(v);
    }
    FilterAllPass(c.registers[..], IsCell);
    FilterAllPass(c.stack, IsCell);
    FilterAllPass(c.globals, IsCell);
  }

  /** With the corrected cell test, no number, boolean, null or undefined
      value is reported. */
  lemma CorrectedTraceReportsCells(c: Context, i: nat)
    requires i < |c.OwnRoots(IsCellCorrected)|
    ensures c.OwnRoots(IsCellCorrected)[i].Slot? ==> IsCellCorrected(c.OwnRoots(IsCellCorrected)[i].v)
    ensures c.OwnRoots(IsCellCorrected)[i].Slot? ==>
      var v := c.OwnRoots(IsCellCorrected)[i].v;
      !IsNumber(v) && !IsBool(v) && !IsNullOrUndefined(v)
  {
    var rs := Filter(c.registers[..], IsCellCorrected);
    var ss := Filter(c.stack, IsCellCorrected);
    var gs := Filter(c.globals, IsCellCorrected);
    FilterMembers(c.registers[..], IsCellCorrected);
    FilterMembers(c.stack, IsCellCorrected);
    FilterMembers(c.globals, IsCellCorrected);
    var roots := c.OwnRoots(IsCellCorrected);
    if roots[i].Slot? {
      var v := roots[i].v;
      if i < |rs| {
        assert v == rs[i];
      } else if i < |rs| + |ss| {
        assert v == ss[i - |rs|];
      } else {
        assert v == gs[i - |rs| - |ss|];
      }
      CellsAreNotImmediates(v);
    }
  }

  /** `contexts()`: the iterator yields the context and then each caller,
      ending after the root. */
  method CollectContexts(c: Context, ghost chain: seq<Context>) returns (all: seq<Context>)
    requires ContextChain(chain) && chain[0] == c
    ensures all == chain
  {
    all := [];
    var current: Context? := c;
    while current != null
      invariant 0 <= |all| <= |chain| && all == chain[..|all|]
      invariant current == if |all| < |chain| then chain[|all|] else null
      decreases |chain| - |all|
    {
      all := all + [current];
      current := current.parent;
    }
  }
}
