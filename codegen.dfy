/** The bookkeeping of the compiler's `Context` (`src/codegen.rs`): the
    register counter, the list of basic blocks and the current one, the label
    table, the stack of enclosing loops, the local-variable scope, and the
    global interning table shared by every context of a module. */
module Codegen {
  import opened Wrappers
  import opened Ints

  /** A key of the global table. */
  datatype Global = Var(name: string) | Func(a: i32, b: i32) | Str(s: string) | Float(text: string)

  /** The instructions the modelled compiler paths emit. */
  datatype Insn = Branch(target: u16) | LoadNull(r: u16) | LoadInt(r: u16, v: i32)

  datatype BasicBlock = BasicBlock(instructions: seq<Insn>, index: nat)

  datatype LoopControlInfo = LoopControlInfo(breakPoint: u16, continuePoint: u16)

  // ---------------------------------------------------------------------------
  // The global table

  /** What `global` and `global2` answer for a key: its id and `false` when
      it is known, otherwise the id it gets next (the table length, cast to
      `i32`) and `true`. */
  function Lookup(globals: map<Global, i32>, table: seq<Global>, key: Global): (i32, bool)
  {
    if key in globals then (globals[key], false) else (AsI32(|table|), true)
  }

  /** The tables after `global(key)`: an unknown key is appended to the table
      and mapped to its position. */
  function Intern(globals: map<Global, i32>, table: seq<Global>, key: Global): (map<Global, i32>, seq<Global>)
  {
    if key in globals then (globals, table)
    else (globals[key := AsI32(|table|)], table + [key])
  }

  /** Every key maps to a slot of the table holding that key. (The table
      may hold entries no key maps to: function slots are pushed directly.) */
  predicate Consistent(globals: map<Global, i32>, table: seq<Global>)
  {
    forall k :: k in globals ==> 0 <= globals[k] < |table| && table[globals[k]] == k
  }

  /** Interning keeps the tables consistent while the table fits `i32`
      indices, and afterwards the key is known under the id it was given:
      asking again answers that id with `false`. */
  lemma InternMeaning(globals: map<Global, i32>, table: seq<Global>, key: Global)
    requires Consistent(globals, table) && |table| <= I32_MAX
    ensures var (gs, t) := Intern(globals, table, key);
      Consistent(gs, t) &&
      Lookup(gs, t, key) == (Lookup(globals, table, key).0, false) &&
      0 <= gs[key] < |t| && t[gs[key]] == key &&
      (key !in globals ==> gs[key] == |table| && |t| == |table| + 1)
  {
  }

  /** Interning never changes the id of a key that was already known. */
  lemma InternKeepsIds(globals: map<Global, i32>, table: seq<Global>, key: Global, other: Global)
    requires other in globals
    ensures var (gs, t) := Intern(globals, table, key);
      other in gs && gs[other] == globals[other]
  {
  }

  /** The table shared by every `Context` of a module (`Rc<RefCell<Globals>>`). */
  class Globals {
    var globals: map<Global, i32>
    var table: seq<Global>

    constructor ()
      ensures globals == map[] && table == []
    {
      globals := map[];
      table := [];
    }
  }

  // ---------------------------------------------------------------------------
  // Labels

  /** The names `new_empty_label` has handed out after `n` calls. */
  function LabelNames(n: nat): set<string>
  {
    set i | 0 <= i < n :: Decimal(i)
  }

  /** The name of the next label is not yet taken, and taking it extends the
      set of names by that one. */
  lemma {:induction false} NextLabelFresh(n: nat)
    ensures Decimal(n) !in LabelNames(n)
    ensures LabelNames(n + 1) == LabelNames(n) + {Decimal(n)}
  {
    if Decimal(n) in LabelNames(n) {
      var i :| 0 <= i < n && Decimal(i) == Decimal(n);
      DecimalInjective(i, n);
    }
    assert LabelNames(n + 1) == LabelNames(n) + {Decimal(n)} by {
      forall s | s in LabelNames(n + 1) ensures s in LabelNames(n) + {Decimal(n)} {
        var i :| 0 <= i < n + 1 && s == Decimal(i);
        if i < n { assert s in LabelNames(n); }
      }
    }
  }

  // ---------------------------------------------------------------------------
  // Bodies run by `with_lci` and `scoped`

  /** A body passed to `with_lci` or `scoped`, as the sequence of compiler
      steps it performs on the context. */
  datatype Cmd =
    | CompileConstInt(x: i64)
    | CompileEmptyBlock
    | CompileBreak
    | CompileContinue
    | BindLocal(name: string, reg: i32)
    | InLoop(lci: LoopControlInfo, body: seq<Cmd>)
    | InScope(body: seq<Cmd>)

  class Context {
    const g: Globals
    var bbs: seq<BasicBlock>
    var currentBb: nat
    var locals: map<string, i32>
    var labels: map<string, Option<u32>>
    var loopControlInfo: seq<LoopControlInfo>
    var regs: u16

    /** The blocks are numbered by position and the last one is current;
        the labels are those handed out so far. */
    predicate Valid()
      reads this
    {
      |bbs| >= 1 && currentBb == |bbs| - 1 &&
      (forall i :: 0 <= i < |bbs| ==> bbs[i].index == i) &&
      labels.Keys == LabelNames(|labels|)
    }

    /** A fresh context (`compile_ast`): one empty block, register 33 next. */
    constructor (g: Globals)
      ensures Valid()
      ensures this.g == g && bbs == [BasicBlock([], 0)] && currentBb == 0
      ensures locals == map[] && labels == map[] && loopControlInfo == [] && regs == 33
    {
      this.g := g;
      bbs := [BasicBlock([], 0)];
      currentBb := 0;
      locals := map[];
      labels := map[];
      loopControlInfo := [];
      regs := 33;
      assert LabelNames(0) == {};
    }

    /** `new_empty_label`: the decimal of the label count, mapped to `None`. */
    method NewEmptyLabel() returns (name: string)
      requires Valid()
      modifies this
      ensures Valid()
      ensures name == Decimal(|old(labels)|) && name !in old(labels)
      ensures labels == old(labels)[name := None] && |labels| == |old(labels)| + 1
      ensures bbs == old(bbs) && currentBb == old(currentBb) && locals == old(locals)
      ensures loopControlInfo == old(loopControlInfo) && regs == old(regs)
    {
      NextLabelFresh(|labels|);
      name := Decimal(|labels|);
      labels := labels[name := None];
    }

    /** `label_here`: the label now names the current block; an unknown
        label panics on the `unwrap`. */
    method LabelHere(name: string) returns (r: Result<()>)
      requires Valid()
      modifies this
      ensures Valid()
      ensures r.Failure? <==> name !in old(labels)
      ensures r.Failure? ==> labels == old(labels)
      ensures r.Success? ==> labels == old(labels)[name := Some(AsU32(currentBb))]
      ensures bbs == old(bbs) && currentBb == old(currentBb) && locals == old(locals)
      ensures loopControlInfo == old(loopControlInfo) && regs == old(regs)
    {
      if name !in labels {
        return Failure("called `Option::unwrap()` on a `None` value");
      }
      labels := labels[name := Some(AsU32(currentBb))];
      return Success(());
    }

    /** `get_lci`: the innermost enclosing loop, if any. */
    function Lci(): (r: Option<LoopControlInfo>)
      reads this
      ensures r.None? <==> loopControlInfo == []
      ensures r.Some? ==> r.value == loopControlInfo[|loopControlInfo| - 1]
    {
      if loopControlInfo != [] then Some(loopControlInfo[|loopControlInfo| - 1]) else None
    }

    /** `new_reg`: hands out the counter and advances it; the `u16` counter
        overflows (a panic) once every register is used. */
    method NewReg() returns (r: Result<u16>)
      modifies this
      ensures r.Failure? <==> old(regs) == TWO_16 - 1
      ensures r.Success? ==> r.value == old(regs) && regs == old(regs) + 1
      ensures r.Failure? ==> regs == old(regs)
      ensures bbs == old(bbs) && currentBb == old(currentBb) && locals == old(locals)
      ensures labels == old(labels) && loopControlInfo == old(loopControlInfo)
    {
      if regs == TWO_16 - 1 {
        return Failure("attempt to add with overflow");
      }
      r := Success(regs);
      regs := regs + 1;
    }

    /** `move_forward`: opens a new empty block and makes it current. */
    method MoveForward()
      requires Valid()
      modifies this
      ensures Valid()
      ensures bbs == old(bbs) + [BasicBlock([], |old(bbs)|)] && currentBb == old(currentBb) + 1
      ensures locals == old(locals) && labels == old(labels)
      ensures loopControlInfo == old(loopControlInfo) && regs == old(regs)
    {
      bbs := bbs + [BasicBlock([], |bbs|)];
      currentBb := currentBb + 1;
    }

    /** `write`: appends to the current block. */
    method Write(ins: Insn)
      requires Valid()
      modifies this
      ensures Valid()
      ensures |bbs| == |old(bbs)| && currentBb == old(currentBb)
      ensures bbs[currentBb].instructions == old(bbs[currentBb].instructions) + [ins]
      ensures forall i :: 0 <= i < |bbs| && i != currentBb ==> bbs[i] == old(bbs[i])
      ensures locals == old(locals) && labels == old(labels)
      ensures loopControlInfo == old(loopControlInfo) && regs == old(regs)
    {
      var b := bbs[currentBb];
      bbs := bbs[currentBb := BasicBlock(b.instructions + [ins], b.index)];
    }

    /** `write_break` / `write_continue`: branch to the innermost loop's
        break (or continue) point and open a new block; outside any loop
        they panic. */
    method WriteJump(isBreak: bool) returns (r: Result<()>)
      requires Valid()
      modifies this
      ensures Valid()
      ensures r.Failure? <==> old(loopControlInfo) == []
      ensures r.Failure? ==> bbs == old(bbs) && currentBb == old(currentBb)
      ensures r.Success? ==>
        var top := old(loopControlInfo)[|old(loopControlInfo)| - 1];
        var target := if isBreak then top.breakPoint else top.continuePoint;
        var cur := old(currentBb);
        bbs == old(bbs)[cur := BasicBlock(old(bbs)[cur].instructions + [Branch(target)], cur)]
               + [BasicBlock([], |old(bbs)|)] &&
        currentBb == cur + 1
      ensures locals == old(locals) && labels == old(labels)
      ensures loopControlInfo == old(loopControlInfo) && regs == old(regs)
    {
      var lci := Lci();
      if lci.None? {
        return Failure(if isBreak then "Can't break" else "can't continue");
      }
      var target := if isBreak then lci.value.breakPoint else lci.value.continuePoint;
      Write(Branch(target));
      MoveForward();
      return Success(());
    }

    /** `global`: the id of `key`, interning it if it is new. */
    method GlobalId(key: Global) returns (r: (i32, bool))
      modifies g
      ensures r == Lookup(old(g.globals), old(g.table), key)
      ensures (g.globals, g.table) == Intern(old(g.globals), old(g.table), key)
    {
      if key in g.globals {
        return (g.globals[key], false);
      }
      var gid := AsI32(|g.table|);
      g.globals := g.globals[key := gid];
      g.table := g.table + [key];
      return (gid, true);
    }

    /** `global2`: the same answer as `global`, without interning. */
    method GlobalId2(key: Global) returns (r: (i32, bool))
      ensures r == Lookup(g.globals, g.table, key)
    {
      if key in g.globals {
        return (g.globals[key], false);
      }
      return (AsI32(|g.table|), true);
    }

    /** `compile` of `ConstInt(x)`: a fresh register loaded with `x as i32`. */
    method CompileConstInt(x: i64) returns (r: Result<u16>)
      requires Valid()
      modifies this
      ensures Valid()
      ensures currentBb == old(currentBb)
      ensures r.Failure? <==> old(regs) == TWO_16 - 1
      ensures r.Success? ==>
        r.value == old(regs) && regs == old(regs) + 1 &&
        bbs == old(bbs)[currentBb := BasicBlock(old(bbs)[currentBb].instructions + [LoadInt(r.value, AsI32(x))], currentBb)]
      ensures r.Failure? ==> bbs == old(bbs)
      ensures locals == old(locals) && labels == old(labels)
      ensures loopControlInfo == old(loopControlInfo)
    {
      var reg :- NewReg();
      Write(LoadInt(reg, AsI32(x)));
      return Success(reg);
    }

    /** `compile` of an empty `Block`: a fresh register loaded with null. */
    method CompileEmptyBlock() returns (r: Result<u16>)
      requires Valid()
      modifies this
      ensures Valid()
      ensures currentBb == old(currentBb)
      ensures r.Failure? <==> old(regs) == TWO_16 - 1
      ensures r.Success? ==>
        r.value == old(regs) && regs == old(regs) + 1 &&
        bbs == old(bbs)[currentBb := BasicBlock(old(bbs)[currentBb].instructions + [LoadNull(r.value)], currentBb)]
      ensures r.Failure? ==> bbs == old(bbs)
      ensures locals == old(locals) && labels == old(labels)
      ensures loopControlInfo == old(loopControlInfo)
    {
      var reg :- NewReg();
      Write(LoadNull(reg));
      return Success(reg);
    }

    /** `with_lci`: runs the body inside a loop whose break and continue
        points are `lci`; the loop stack is restored afterwards, also when
        the body panics (the panic is then passed on). */
    method WithLci(lci: LoopControlInfo, body: seq<Cmd>) returns (r: Result<()>)
      requires Valid()
      modifies this
      ensures Valid()
      ensures loopControlInfo == old(loopControlInfo)
      decreases body, 1
    {
      loopControlInfo := loopControlInfo + [lci];
      r := ExecAll(body);
      loopControlInfo := loopControlInfo[..|loopControlInfo| - 1];
    }

    /** `scoped`: runs the body and puts the local-variable map back as it
        was, also when the body panics. */
    method Scoped(body: seq<Cmd>) returns (r: Result<()>)
      requires Valid()
      modifies this
      ensures Valid()
      ensures locals == old(locals) && loopControlInfo == old(loopControlInfo)
      decreases body, 1
    {
      var prev := locals;
      r := ExecAll(body);
      locals := prev;
    }

    /** Runs the steps in order, stopping at the first panic. */
    method ExecAll(cs: seq<Cmd>) returns (r: Result<()>)
      requires Valid()
      modifies this
      ensures Valid()
      ensures loopControlInfo == old(loopControlInfo)
      decreases cs, 0
    {
      var k := 0;
      while k < |cs|
        invariant 0 <= k <= |cs|
        invariant Valid()
        invariant loopControlInfo == old(loopControlInfo)
      {
        var step := Exec(cs[k]);
        if step.Failure? {
          return step;
        }
        k := k + 1;
      }
      return Success(());
    }

    method Exec(c: Cmd) returns (r: Result<()>)
      requires Valid()
      modifies this
      ensures Valid()
      ensures loopControlInfo == old(loopControlInfo)
      decreases c
    {
      match c {
        case CompileConstInt(x) =>
          var reg := CompileConstInt(x);
          r := if reg.Failure? then Failure(reg.error) else Success(());
        case CompileEmptyBlock =>
          var reg := CompileEmptyBlock();
          r := if reg.Failure? then Failure(reg.error) else Success(());
        case CompileBreak =>
          r := WriteJump(true);
        case CompileContinue =>
          r := WriteJump(false);
        case BindLocal(name, reg) =>
          locals := locals[name := reg];
          r := Success(());
        case InLoop(lci, body) =>
          r := WithLci(lci, body);
        case InScope(body) =>
          r := Scoped(body);
      }
    }
  }
}
