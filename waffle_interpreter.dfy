/** The interpreter of the `waffle` VM (`vm/src/interpreter/mod.rs`): the
    `Push`, `Pop`, `Branch`, `ConditionalBranch`, `MakeEnv` and `Return`
    arms of `run`, the safepoint, `throw`, `clear_catch_tables` and the
    report `runtime_panic` prints. */
module WaffleInterpreter {
  import opened Wrappers
  import opened RegisterFile
  import opened NanBox
  import opened WaffleContext
  import opened WaffleProcess
  import WaffleCell
  import Ints
  import Safepoint

  /** The `Result<Value, Value>` of `run` and `throw`. */
  datatype Outcome = Ok(value: Value) | Err(error: Value)

  /** What an arm of `run` leaves the loop with. */
  datatype Exit = Continue | Returned(value: Value)

  // ---------------------------------------------------------------------------
  // Catch tables

  /** The test `retain` applies: the table's context is shallower than the
      exiting one. */
  function Shallower(depth: Context -> nat, exiting: nat): CatchTable -> bool
  {
    (t: CatchTable) => depth(t.context) < exiting
  }

  /** The catch tables `clear_catch_tables` keeps when a context of depth
      `exiting` returns, the depth of each context given by `depth`. */
  function Retained(tables: seq<CatchTable>, depth: Context -> nat, exiting: nat): (r: seq<CatchTable>)
    ensures |r| <= |tables|
  {
    Filter(tables, Shallower(depth, exiting))
  }

  /** Exactly the tables whose context is shallower than the exiting one
      are kept. */
  lemma RetainedMeaning(tables: seq<CatchTable>, depth: Context -> nat, exiting: nat)
    ensures forall t :: t in Retained(tables, depth, exiting) <==> t in tables && depth(t.context) < exiting
  {
    FilterMembers(tables, Shallower(depth, exiting));
  }

  /** Clearing keeps the order of the kept tables: a table installed by a
      shallower context stays, and the tables of the exiting context go. */
  lemma RetainedAppend(tables: seq<CatchTable>, t: CatchTable, depth: Context -> nat, exiting: nat)
    ensures Retained(tables + [t], depth, exiting) ==
      Retained(tables, depth, exiting) + (if depth(t.context) < exiting then [t] else [])
  {
    FilterAppend(tables, [t], Shallower(depth, exiting));
  }

  // ---------------------------------------------------------------------------
  // The panic report

  const PANIC_HEADER: string := "Stack trace (the most recent call comes last):"
  const LINE_START: string := "\n  "
  const SEPARATOR: string := ": "
  const PROCESS_START: string := "\nProcess "
  const PANICKED: string := " panicked: "

  /** One numbered line of the stack trace. */
  function FrameLine(i: nat, frame: string): string
  {
    LINE_START + Ints.Decimal(i) + SEPARATOR + frame
  }

  /** The last line, naming the process and the message. */
  function ProcessLine(pid: nat, message: string): string
  {
    PROCESS_START + Ints.Hex(pid) + PANICKED + message
  }

  /** The lines `line(from, frames[0])`, `line(from + 1, frames[1])`, ...
      joined in order. */
  function Numbered(line: (nat, string) -> string, frames: seq<string>, from: nat): string
    decreases |frames|
  {
    if frames == [] then ""
    else line(from, frames[0]) + Numbered(line, frames[1..], from + 1)
  }

  /** The lines for `frames`, numbered from `from`. */
  function NumberedLines(frames: seq<string>, from: nat): string
  {
    Numbered(FrameLine, frames, from)
  }

  /** The report of `runtime_panic`, for the frames of the contexts from
      the current one to the root. */
  function PanicReport(frames: seq<string>, pid: nat, message: string): string
  {
    PANIC_HEADER + NumberedLines(Reversed(frames), 0) + ProcessLine(pid, message)
  }

  /** Appending a frame appends its line, numbered after the others. */
  lemma {:induction false} NumberedSnoc(line: (nat, string) -> string, frames: seq<string>, f: string, from: nat)
    ensures Numbered(line, frames + [f], from) == Numbered(line, frames, from) + line(from + |frames|, f)
    decreases |frames|
  {
    if frames == [] {
      assert [f][1..] == [];
    } else {
      var rest := frames[1..];
      assert (frames + [f])[0] == frames[0];
      assert (frames + [f])[1..] == rest + [f];
      NumberedSnoc(line, rest, f, from + 1);
      assert from + 1 + |rest| == from + |frames|;
    }
  }

  /** The same for the stack-trace lines. */
  lemma NumberedLinesSnoc(frames: seq<string>, f: string, from: nat)
    ensures NumberedLines(frames + [f], from) == NumberedLines(frames, from) + FrameLine(from + |frames|, f)
  {
    NumberedSnoc(FrameLine, frames, f, from);
  }

  /** Between the header and the process line, the report lists the root
      first, as frame 0 ... */
  lemma PanicReportRootFirst(frames: seq<string>)
    requires frames != []
    ensures NumberedLines(Reversed(frames), 0) ==
      FrameLine(0, frames[|frames| - 1]) + NumberedLines(Reversed(frames)[1..], 1)
  {
  }

  /** ... and the current context last, under the largest number. */
  lemma {:induction false} PanicReportCurrentLast(frames: seq<string>)
    requires frames != []
    ensures NumberedLines(Reversed(frames), 0) ==
      NumberedLines(Reversed(frames[1..]), 0) + FrameLine(|frames| - 1, frames[0])
  {
    var rest := Reversed(frames[1..]);
    ReversedFirst(frames);
    NumberedLinesSnoc(rest, frames[0], 0);
    assert 0 + |rest| == |frames| - 1;
  }

  /** `runtime_panic`: the frame of each context, from the current one to
      the root (`contexts()`), reversed, numbered, then the process line.
      The text of each frame (module and function name) is given by
      `frameOf`. */
  method RuntimePanic(c: Context, ghost chain: seq<Context>, frameOf: Context -> string,
                      pid: nat, message: string)
    returns (buffer: string)
    requires ContextChain(chain) && chain[0] == c
    ensures buffer == PanicReport(seq(|chain|, i requires 0 <= i < |chain| => frameOf(chain[i])), pid, message)
  {
    var contexts := CollectContexts(c, chain);
    var frames: seq<string> := [];
    for i := 0 to |contexts|
      invariant frames == seq(i, j requires 0 <= j < i => frameOf(contexts[j]))
    {
      frames := frames + [frameOf(contexts[i])];
    }
    frames := Reversed(frames);
    var lines := NumberFrames(frames);
    buffer := PANIC_HEADER + lines + ProcessLine(pid, message);
  }

  /** The numbered lines of `runtime_panic`, appended frame by frame. */
  method NumberFrames(frames: seq<string>) returns (lines: string)
    ensures lines == NumberedLines(frames, 0)
  {
    lines := "";
    for i := 0 to |frames|
      invariant lines == NumberedLines(frames[..i], 0)
    {
      NumberedLinesSnoc(frames[..i], frames[i], 0);
      assert frames[..i + 1] == frames[..i] + [frames[i]];
      lines := lines + FrameLine(i, frames[i]);
    }
    assert frames[..|frames|] == frames;
  }

  // ---------------------------------------------------------------------------
  // The interpreter

  class Interpreter {
    const process: Process
    var index: nat
    var bindex: nat
    var reductions: nat

    /** The start of `run`: 1000 reductions, and the position of the
        current context. */
    constructor (p: Process)
      ensures process == p && reductions == 1000
      ensures index == p.context.index && bindex == p.context.bindex
    {
      process := p;
      reductions := 1000;
      index := p.context.index;
      bindex := p.context.bindex;
    }

    /** `reset_context!`. */
    method ResetContext()
      modifies this`index, this`bindex
      ensures index == process.context.index && bindex == process.context.bindex
    {
      index := process.context.index;
      bindex := process.context.bindex;
    }

    /** `safepoint_and_reduce!`: whether `run` returns `Null` here. */
    method SafepointAndReduce(gcRequested: bool) returns (leave: bool)
      modifies this`reductions
      ensures leave <==> gcRequested || old(reductions) == 0
      ensures reductions == Safepoint.Reduce(old(reductions), gcRequested).1
    {
      var r := Safepoint.Reduce(reductions, gcRequested);
      reductions := r.1;
      leave := r.0 != Safepoint.Continue;
    }

    /** `Push(r)`: the register's value goes on top of the stack; a register
        index past the registers panics, and nothing changes. */
    method Push(r: nat) returns (res: Result<()>)
      modifies process.context`stack
      ensures res.Success? <==> r < process.context.registers.Length
      ensures res.Success? ==>
        process.context.stack == old(process.context.stack) + [process.context.registers[r]]
      ensures res.Failure? ==> process.context.stack == old(process.context.stack)
    {
      var context := process.context;
      if r >= context.registers.Length {
        return Failure("index out of bounds");
      }
      context.stack := context.stack + [context.Register(r)];
      return Success(());
    }

    /** `Pop(r)`: the top of the stack, or undefined when it is empty, goes
        into the register; a register index past the registers panics, and
        nothing changes. */
    method Pop(r: nat) returns (res: Result<()>)
      modifies process.context`stack, process.context.registers
      ensures res.Success? <==> r < process.context.registers.Length
      ensures res.Success? && old(process.context.stack) == [] ==>
        process.context.stack == [] &&
        process.context.registers[..] == old(process.context.registers[..])[r := FromTag(Undefined)]
      ensures res.Success? && old(process.context.stack) != [] ==>
        var s := old(process.context.stack);
        process.context.stack == s[..|s| - 1] &&
        process.context.registers[..] == old(process.context.registers[..])[r := s[|s| - 1]]
      ensures res.Failure? ==>
        process.context.stack == old(process.context.stack) &&
        process.context.registers[..] == old(process.context.registers[..])
    {
      var context := process.context;
      if r >= context.registers.Length {
        return Failure("index out of bounds");
      }
      var value := FromTag(Undefined);
      if context.stack != [] {
        value := context.stack[|context.stack| - 1];
        context.stack := context.stack[..|context.stack| - 1];
      }
      res := context.SetRegister(r, value);
    }

    /** `Branch(block)`. */
    method Branch(block: nat)
      modifies this`bindex
      ensures bindex == block && index == old(index)
    {
      bindex := block;
    }

    /** `ConditionalBranch(r, if_true, if_false)`, with the truth of a value
        given by `toBoolean`; a register index past the registers panics,
        and the block stays. */
    method ConditionalBranch(r: nat, ifTrue: nat, ifFalse: nat, toBoolean: Value -> bool)
      returns (res: Result<()>)
      modifies this`bindex
      ensures res.Success? <==> r < process.context.registers.Length
      ensures res.Success? ==>
        bindex == if toBoolean(process.context.registers[r]) then ifTrue else ifFalse
      ensures res.Failure? ==> bindex == old(bindex)
      ensures index == old(index)
    {
      if r >= process.context.registers.Length {
        return Failure("index out of bounds");
      }
      var value := process.context.Register(r);
      if toBoolean(value) {
        bindex := ifTrue;
      } else {
        bindex := ifFalse;
      }
      return Success(());
    }

    /** `MakeEnv(function, count)`: `count` values are popped, the last one
        pushed first, and become the upvalues of the function cell the
        register points to (`cells` maps a cell value to its cell). Popping
        an empty stack, or a register holding no function cell, panics. */
    method MakeEnv(fn: nat, count: nat, cells: map<Value, WaffleCell.Cell>)
      requires fn < process.context.registers.Length
      requires count <= |process.context.stack|
      requires IsCell(process.context.registers[fn])
      requires process.context.registers[fn] in cells
      requires cells[process.context.registers[fn]].value.Function?
      modifies process.context`stack, cells[process.context.registers[fn]]
      ensures var s := old(process.context.stack);
        process.context.stack == s[..|s| - count] &&
        var cell := cells[process.context.registers[fn]];
        cell.value.Function? &&
        cell.value.f == old(cell.value.f).(upvalues := Reversed(s[|s| - count..]))
    {
      var context := process.context;
      ghost var s := context.stack;
      ghost var cell := cells[context.Register(fn)];
      var upvalues: seq<Value> := [];
      for i := 0 to count
        invariant context.stack == s[..|s| - i]
        invariant upvalues == Reversed(s[|s| - i..])
        invariant cell.value == old(cell.value)
      {
        var v := context.stack[|context.stack| - 1];
        ghost var popped := s[|s| - i..];
        assert s[|s| - (i + 1)..] == [v] + popped;
        ReversedCons(v, popped);
        context.stack := context.stack[..|context.stack| - 1];
        upvalues := upvalues + [v];
      }
      var target := cells[context.Register(fn)];
      target.value := WaffleCell.Function(target.value.f.(upvalues := upvalues));
    }

    /** `clear_catch_tables`: the tables of the exiting context and deeper
        ones are dropped. */
    method ClearCatchTables(exiting: Context, depth: Context -> nat)
      modifies process`catchTables
      ensures process.catchTables == Retained(old(process.catchTables), depth, depth(exiting))
    {
      process.catchTables := Retained(process.catchTables, depth, depth(exiting));
    }

    /** `Return(value)`: the register's value, or null. The catch tables of
        the returning context are cleared; a context that terminates upon
        return, or the top context, returns the value from `run`. Otherwise
        the caller resumes, after a safepoint that may return null. */
    method Return(value: Option<nat>, terminateUponReturn: bool, depth: Context -> nat,
                  gcRequested: bool, ghost chain: seq<Context>)
      returns (exit: Exit)
      requires ContextChain(chain) && chain[0] == process.context
      requires value.Some? ==> value.value < process.context.registers.Length
      modifies this`index, this`bindex, this`reductions, process`context, process`catchTables
      modifies process.context`parent
      ensures process.catchTables == Retained(old(process.catchTables), depth, depth(chain[0]))
      ensures var v := if value.Some? then old(chain[0].registers[value.value]) else FromTag(Null);
        (terminateUponReturn || |chain| == 1 ==> exit == Returned(v) && process.context == chain[0]) &&
        (!terminateUponReturn && |chain| > 1 ==>
          process.context == chain[1] && ContextChain(chain[1..]) &&
          index == chain[1].index && bindex == chain[1].bindex &&
          (exit == Continue <==> !gcRequested && old(reductions) > 0) &&
          (exit != Continue ==> exit == Returned(FromTag(Null))))
    {
      var context := process.context;
      var v := if value.Some? then context.Register(value.value) else FromTag(Null);
      ClearCatchTables(context, depth);
      if terminateUponReturn {
        return Returned(v);
      }
      var isTop := process.PopContext(chain);
      if isTop {
        return Returned(v);
      }
      ResetContext();
      var leave := SafepointAndReduce(gcRequested);
      exit := if leave then Returned(FromTag(Null)) else Continue;
    }
  }

  /** The first steps of the arm of `Runtime::throw` that has a catch
      table: `table.context.replace(Context::new())` moves the contents out
      into a new context and leaves the table's context empty, then the
      value goes into the table's register of the moved copy and the copy
      resumes at the table's block. A register past the registers is the
      out-of-bounds panic of `set_register` (a `Failure`), reached after the
      context was emptied. */
  method MoveOutForCatch(table: CatchTable, value: Value) returns (catchCtx: Context, r: Result<()>)
    modifies table.context, table.context.registers
    ensures r.Failure? <==> table.register >= table.context.registers.Length
    ensures table.context.IsNew() && fresh(catchCtx)
    ensures r.Success? ==>
      catchCtx.registers[..] == old(table.context.registers[..])[table.register := value] &&
      catchCtx.bindex == table.jumpTo && catchCtx.index == old(table.context.index) &&
      catchCtx.stack == old(table.context.stack) && catchCtx.globals == old(table.context.globals) &&
      catchCtx.func == old(table.context.func)
  {
    catchCtx := table.context.ReplaceWithNew();
    r := catchCtx.SetRegister(table.register, value);
    if r.Success? {
      catchCtx.bindex := table.jumpTo;
    }
  }

  /** The arm of `Runtime::throw` that has a catch table: the moved copy
      is pushed on top of the current context. A catching context on the
      chain is emptied in place, so the chain now ends there. On the panic
      of `set_register` nothing is pushed. */
  method Catch(process: Process, table: CatchTable, value: Value, ghost chain: seq<Context>) returns (r: Result<Outcome>)
    requires ContextChain(chain) && chain[0] == process.context
    modifies process`context, table.context, table.context.registers
    ensures r.Failure? <==> table.register >= table.context.registers.Length
    ensures table.context.IsNew()
    ensures r.Failure? ==> process.context == old(process.context) && ContextChain(UpTo(chain, table.context))
    ensures r.Success? ==>
      var c := process.context;
      r.value == Ok(Empty()) &&
      fresh(c) && c.parent == old(process.context) &&
      c.registers[..] == old(table.context.registers[..])[table.register := value] &&
      c.bindex == table.jumpTo && c.index == old(table.context.index) &&
      c.stack == old(table.context.stack) && c.globals == old(table.context.globals) &&
      c.func == old(table.context.func) &&
      ContextChain([c] + UpTo(chain, table.context))
  {
    ghost var cut := UpTo(chain, table.context);
    var catchCtx, stored := MoveOutForCatch(table, value);
    assert forall i :: 0 <= i < |cut| - 1 ==> cut[i].parent == cut[i + 1];
    assert ContextChain(cut);
    if stored.Failure? {
      return Failure(stored.error);
    }
    process.PushContext(catchCtx, cut);
    r := Success(Ok(Empty()));
  }

  /** `Runtime::throw`: without a catch table, the value is the error;
      with one, the most recent table is removed and `Catch` runs it. */
  method Throw(process: Process, value: Value, ghost chain: seq<Context>) returns (r: Result<Outcome>)
    requires ContextChain(chain) && chain[0] == process.context
    modifies process`context, process`catchTables
    modifies if process.catchTables != [] then
      var t := process.catchTables[|process.catchTables| - 1];
      {t.context, t.context.registers}
      else {}
    ensures old(process.catchTables) == [] ==>
      r == Success(Err(value)) && process.context == old(process.context) && process.catchTables == []
    ensures old(process.catchTables) != [] ==>
      var t := old(process.catchTables)[|old(process.catchTables)| - 1];
      (r.Failure? <==> t.register >= t.context.registers.Length) &&
      process.catchTables == old(process.catchTables)[..|old(process.catchTables)| - 1] &&
      t.context.IsNew()
    ensures old(process.catchTables) != [] && r.Failure? ==>
      var t := old(process.catchTables)[|old(process.catchTables)| - 1];
      process.context == old(process.context) && ContextChain(UpTo(chain, t.context))
    ensures old(process.catchTables) != [] && r.Success? ==>
      var t := old(process.catchTables)[|old(process.catchTables)| - 1];
      var c := process.context;
      r.value == Ok(Empty()) &&
      fresh(c) && c.parent == old(process.context) &&
      c.registers[..] == old(t.context.registers[..])[t.register := value] &&
      c.bindex == t.jumpTo && c.index == old(t.context.index) &&
      c.stack == old(t.context.stack) && c.globals == old(t.context.globals) && c.func == old(t.context.func) &&
      ContextChain([c] + UpTo(chain, t.context))
  {
    if process.catchTables == [] {
      return Success(Err(value));
    }
    var table := process.catchTables[|process.catchTables| - 1];
    process.catchTables := process.catchTables[..|process.catchTables| - 1];
    r := Catch(process, table, value, chain);
  }

  /** Three contexts, the middle one holding the catch table, as when a
      function with a `try` calls one that throws: as written, the handler
      runs in a copy pushed on top of the thrower, the catching context is
      emptied, and its caller is no longer reachable from the process. */
  method CaughtByCallerAsWritten(value: Value) returns (process: Process, root: Context, caller: Context, callee: Context)
    ensures process.context != caller && process.context.parent == callee && callee.parent == caller
    ensures caller.parent == null && root.parent == null
    ensures forall i :: 0 <= i < caller.registers.Length ==> IsUndefined(caller.registers[i])
  {
    root := new Context();
    caller := new Context();
    callee := new Context();
    caller.parent := root;
    callee.parent := caller;
    process := new Process(callee);
    process.catchTables := [CatchTable(1, caller, 0)];
    var r := Throw(process, value, [callee, caller, root]);
  }

  /** The intended `throw`: the contexts above the catching one are
      unwound and the catching context itself receives the value in the
      table's register and resumes at the table's block, its callers kept.
      It presumes what `clear_catch_tables` upholds, that a table belongs to
      a context still on the chain. A table register past the registers is
      still the panic of `set_register`, after the table was removed. */
  method ThrowCorrected(process: Process, value: Value, ghost chain: seq<Context>) returns (r: Result<Outcome>)
    requires ContextChain(chain) && chain[0] == process.context
    requires process.catchTables != [] ==>
      var t := process.catchTables[|process.catchTables| - 1];
      t.context in chain
    modifies process`context, process`catchTables
    modifies if process.catchTables != [] then
      var t := process.catchTables[|process.catchTables| - 1];
      {t.context, t.context.registers}
      else {}
    ensures old(process.catchTables) == [] ==>
      r == Success(Err(value)) && process.context == old(process.context) && process.catchTables == []
    ensures old(process.catchTables) != [] ==>
      var t := old(process.catchTables)[|old(process.catchTables)| - 1];
      (r.Failure? <==> t.register >= t.context.registers.Length) &&
      process.catchTables == old(process.catchTables)[..|old(process.catchTables)| - 1]
    ensures old(process.catchTables) != [] && r.Failure? ==>
      var t := old(process.catchTables)[|old(process.catchTables)| - 1];
      process.context == old(process.context) && t.context.registers[..] == old(t.context.registers[..])
    ensures old(process.catchTables) != [] && r.Success? ==>
      var t := old(process.catchTables)[|old(process.catchTables)| - 1];
      var k := |UpTo(chain, t.context)| - 1;
      r.value == Ok(Empty()) &&
      process.context == t.context && process.context == chain[k] &&
      t.context.registers[..] == old(t.context.registers[..])[t.register := value] &&
      t.context.bindex == t.jumpTo && t.context.parent == old(t.context.parent) &&
      ContextChain(chain[k..])
  {
    if process.catchTables == [] {
      return Success(Err(value));
    }
    var table := process.catchTables[|process.catchTables| - 1];
    process.catchTables := process.catchTables[..|process.catchTables| - 1];
    ghost var k := |UpTo(chain, table.context)| - 1;
    var stored := table.context.SetRegister(table.register, value);
    if stored.Failure? {
      return Failure(stored.error);
    }
    table.context.bindex := table.jumpTo;
    process.context := table.context;
    assert forall i :: k <= i < |chain| - 1 ==> chain[i].parent == chain[i + 1];
    r := Success(Ok(Empty()));
  }
}
