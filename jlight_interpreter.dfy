/** The dispatch loop of the jlight VM (`jlight-vm/src/runtime/interpreter.rs`),
    arm by arm: the operand stack, arrays that grow on access, jumps, closures,
    calls and returns. The loop's locals `index` (instruction within the block)
    and `bindex` (block) are fields of an `Interpreter`; the current context is
    the thread's. Arithmetic on floats is not part of this model. */
module JlightInterpreter {
  import opened Wrappers
  import JlightObject
  import opened JlightContext
  import opened JlightThreads

  type Object = JlightObject.Object

  // ---------------------------------------------------------------------------
  // The operand stack

  /** What `stack.pop().unwrap_or(nil)` yields. */
  function Top(stack: seq<Pointer>, nil: Pointer): Pointer
  {
    if stack == [] then nil else stack[|stack| - 1]
  }

  /** The stack left after that pop. */
  function Rest(stack: seq<Pointer>): seq<Pointer>
  {
    if stack == [] then [] else stack[..|stack| - 1]
  }

  /** `n` pops with the nil default: the values in the order popped, and the
      stack left. */
  function PopN(stack: seq<Pointer>, n: nat, nil: Pointer): (seq<Pointer>, seq<Pointer>)
  {
    if n == 0 then ([], stack)
    else
      var r := PopN(Rest(stack), n - 1, nil);
      ([Top(stack, nil)] + r.0, r.1)
  }

  /** Popping `n` values takes the top `min(n, |stack|)` entries, the last
      pushed first, and supplies nil for each one missing. */
  lemma {:induction false} PopNMeaning(stack: seq<Pointer>, n: nat, nil: Pointer)
    ensures var k := if n <= |stack| then n else |stack|;
      |PopN(stack, n, nil).0| == n &&
      PopN(stack, n, nil).1 == stack[..|stack| - k] &&
      (forall i :: 0 <= i < k ==> PopN(stack, n, nil).0[i] == stack[|stack| - 1 - i]) &&
      (forall i :: k <= i < n ==> PopN(stack, n, nil).0[i] == nil)
  {
    if n > 0 {
      PopNMeaning(Rest(stack), n - 1, nil);
      if stack != [] {
        assert stack[..|stack| - 1][..|stack| - 1 - (if n - 1 <= |stack| - 1 then n - 1 else |stack| - 1)]
          == stack[..|stack| - (if n <= |stack| then n else |stack|)];
      }
    }
  }

  /** A pop undoes a push. */
  lemma PushThenPop(stack: seq<Pointer>, v: Pointer, nil: Pointer)
    ensures Top(stack + [v], nil) == v && Rest(stack + [v]) == stack
  {
  }

  // ---------------------------------------------------------------------------
  // Arrays that grow on access

  /** The array after `Load` or `Store` with index `idx`: padded with nil up
      to length `idx + 1` when it is shorter. */
  function Extended(elems: seq<Pointer>, idx: nat, nil: Pointer): seq<Pointer>
  {
    if idx < |elems| then elems else elems + seq(idx + 1 - |elems|, _ => nil)
  }

  /** The padded array reaches `idx`, keeps every element, and the new slots
      hold nil; a second access at the same index pads nothing more. */
  lemma ExtendedMeaning(elems: seq<Pointer>, idx: nat, nil: Pointer, v: Pointer)
    ensures |Extended(elems, idx, nil)| == if idx < |elems| then |elems| else idx + 1
    ensures forall i :: 0 <= i < |elems| ==> Extended(elems, idx, nil)[i] == elems[i]
    ensures forall i :: |elems| <= i < |Extended(elems, idx, nil)| ==> Extended(elems, idx, nil)[i] == nil
    ensures var stored := Extended(elems, idx, nil)[idx := v];
      Extended(stored, idx, nil) == stored && Extended(stored, idx, nil)[idx] == v
  {
  }

  /** Where `run` returns to its caller, if it does. */
  datatype Exit = Continue | Returned(p: Pointer)

  /** The value `Return(value)` hands back: the register, or nil. */
  function ReturnedValue(c: Context, value: Option<nat>, nil: Pointer): Pointer
    requires value.Some? ==> value.value < c.registers.Length
    reads c.registers
  {
    if value.Some? then c.registers[value.value] else nil
  }

  class Interpreter {
    const thread: JThread
    /** The state's `nil_prototype`, which also stands for null. */
    const nilProto: Pointer
    const booleanProto: Pointer
    var index: nat
    var bindex: nat

    constructor (thread: JThread, nilProto: Pointer, booleanProto: Pointer)
      ensures this.thread == thread && this.nilProto == nilProto && this.booleanProto == booleanProto
      ensures index == 0 && bindex == 0
    {
      this.thread := thread;
      this.nilProto := nilProto;
      this.booleanProto := booleanProto;
      index := 0;
      bindex := 0;
    }

    /** `reset_context!` as `run` first invokes it, with `index` and
        `bindex` passed in swapped order: the block index gets the saved
        instruction index and the other way round. */
    method ResetContextAsWritten()
      modifies this
      ensures index == thread.context.bp && bindex == thread.context.ip
    {
      bindex := thread.context.ip;
      index := thread.context.bp;
    }

    /** `reset_context!` as every other site invokes it: resume where the
        current context was suspended. */
    method ResetContext()
      modifies this
      ensures index == thread.context.ip && bindex == thread.context.bp
    {
      index := thread.context.ip;
      bindex := thread.context.bp;
    }

    /** The first half of `enter_context!`: save the position in the context
        being left. */
    method SaveContext()
      modifies thread.context`ip, thread.context`bp
      ensures thread.context.ip == index && thread.context.bp == bindex
    {
      thread.context.ip := index;
      thread.context.bp := bindex;
    }

    // -------------------------------------------------------------------------
    // Push and Pop

    /** `Push(r)`. */
    method Push(r: nat)
      requires r < thread.context.registers.Length
      modifies thread.context
      ensures thread.context.stack == old(thread.context.stack) + [thread.context.registers[r]]
      ensures thread.context.upvalues == old(thread.context.upvalues)
    {
      var c := thread.context;
      c.stack := c.stack + [c.registers[r]];
    }

    /** `Pop(r)`: the top of the stack, or nil when it is empty. */
    method Pop(r: nat)
      requires r < thread.context.registers.Length
      modifies thread.context, thread.context.registers
      ensures thread.context.stack == Rest(old(thread.context.stack))
      ensures thread.context.registers[..] ==
        old(thread.context.registers[..])[r := Top(old(thread.context.stack), nilProto)]
    {
      var c := thread.context;
      var v := Top(c.stack, nilProto);
      c.stack := Rest(c.stack);
      var stored := c.SetRegister(r, v);
    }

    /** The argument loop of `Call`, `Construct` and `TailCall`: `argc` pops
        with the nil default, collected in the order popped. */
    method PopArguments(argc: nat) returns (args: seq<Pointer>)
      modifies thread.context
      ensures (args, thread.context.stack) == PopN(old(thread.context.stack), argc, nilProto)
      ensures thread.context.upvalues == old(thread.context.upvalues)
      ensures thread.context.parent == old(thread.context.parent)
    {
      var c := thread.context;
      ghost var full := PopN(c.stack, argc, nilProto);
      args := [];
      var i := 0;
      while i < argc
        invariant 0 <= i <= argc
        invariant c.upvalues == old(c.upvalues) && c.parent == old(c.parent)
        invariant args + PopN(c.stack, argc - i, nilProto).0 == full.0
        invariant PopN(c.stack, argc - i, nilProto).1 == full.1
      {
        ghost var rest := PopN(Rest(c.stack), argc - i - 1, nilProto);
        assert PopN(c.stack, argc - i, nilProto) == ([Top(c.stack, nilProto)] + rest.0, rest.1);
        var v := Top(c.stack, nilProto);
        c.stack := Rest(c.stack);
        assert (args + [v]) + rest.0 == args + ([v] + rest.0);
        args := args + [v];
        i := i + 1;
      }
      assert args + [] == args;
    }

    /** `Call` of a bytecode function that is not yet hot: a new context
        receives the arguments, the function's upvalues and its module's
        globals, the caller's position is saved, and execution starts at the
        new context's first block. The function's blocks and object, its
        hotness counter, the traced path of a hot function, native functions
        and a tagged number in the function register are not part of this
        model. */
    method EnterCall(returnRegister: nat, argc: nat, f: JlightObject.FunctionValue, ghost chain: seq<Context>)
      returns (callee: Context)
      requires ContextChain(chain) && chain[0] == thread.context
      modifies this, thread, thread.context
      ensures fresh(callee) && thread.context == callee && callee.parent == old(thread.context)
      ensures (callee.stack, old(thread.context).stack) == PopN(old(thread.context.stack), argc, nilProto)
      ensures callee.returnRegister == Some(returnRegister) && callee.upvalues == f.upvalues
      ensures callee.globals == f.globals
      ensures callee.ip == 0 && callee.bp == 0 && callee.this_.Null? && !callee.terminateUponReturn
      ensures callee.registers.Length == JlightContext.NUM_REGISTERS
      ensures forall i :: 0 <= i < callee.registers.Length ==> callee.registers[i].Null?
      ensures old(thread.context).ip == old(index) && old(thread.context).bp == old(bindex)
      ensures index == 0 && bindex == 0
      ensures ContextChain([callee] + chain)
    {
      callee := new Context();
      callee.returnRegister := Some(returnRegister);
      var args := PopArguments(argc);
      callee.stack := args;
      callee.upvalues := f.upvalues;
      callee.globals := f.globals;
      SaveContext();
      thread.PushContext(callee, chain);
      ResetContext();
    }

    // -------------------------------------------------------------------------
    // Arrays and attributes

    /** `Load(to, array, idx)` with a numeric index (its conversion to an
        index is taken as done): the array grows to reach `idx`, then the
        element is read. */
    method LoadElement(to: nat, o: Object, idx: nat)
      requires o.value.Array? && to < thread.context.registers.Length
      modifies o, thread.context.registers
      ensures o.value == JlightObject.Array(Extended(old(o.value.elems), idx, nilProto))
      ensures idx < |o.value.elems|
      ensures thread.context.registers[..] == old(thread.context.registers[..])[to := o.value.elems[idx]]
    {
      Grow(o, idx);
      var stored := thread.context.SetRegister(to, o.value.elems[idx]);
    }

    /** `Store(array, idx, value)` with a numeric index: the array grows to
        reach `idx`, then the element is written. */
    method StoreElement(o: Object, idx: nat, valueReg: nat)
      requires o.value.Array? && valueReg < thread.context.registers.Length
      modifies o
      ensures o.value == JlightObject.Array(Extended(old(o.value.elems), idx, nilProto)[idx := thread.context.registers[valueReg]])
    {
      Grow(o, idx);
      o.value := JlightObject.Array(o.value.elems[idx := thread.context.registers[valueReg]]);
    }

    /** The loop `for _ in array.len()..=idx { array.push(nil) }`. */
    method Grow(o: Object, idx: nat)
      requires o.value.Array?
      modifies o
      ensures o.value == JlightObject.Array(Extended(old(o.value.elems), idx, nilProto))
      ensures idx < |o.value.elems|
    {
      ghost var elems := o.value.elems;
      if idx >= |o.value.elems| {
        var k := |o.value.elems|;
        while k <= idx
          invariant |elems| <= k <= idx + 1
          invariant o.value == JlightObject.Array(elems + seq(k - |elems|, _ => nilProto))
        {
          o.value := JlightObject.Array(o.value.elems + [nilProto]);
          k := k + 1;
        }
      }
    }

    /** `Load(to, object, key)` when the object is not an array or the key
        not a number: the key must be a string object, else the unwrap of
        `as_string` panics and nothing changes; the register receives the
        attribute found along the prototype chain, or nil. */
    method LoadAttribute(to: nat, o: Object, key: Pointer, ghost chain: seq<Object>) returns (r: Result<()>)
      requires JlightObject.ObjChain(chain) && chain[0] == o && to < thread.context.registers.Length
      modifies thread.context.registers
      ensures r.Success? <==> JlightObject.AsString(key).Success?
      ensures r.Success? ==> var found := old(JlightObject.LookupIn(chain, JlightObject.AsString(key).value));
        thread.context.registers[..] ==
          old(thread.context.registers[..])[to := if found.Some? then found.value else nilProto]
      ensures r.Failure? ==> thread.context.registers[..] == old(thread.context.registers[..])
    {
      var name :- JlightObject.AsString(key);
      ghost var objects := JlightObject.Objects(chain);
      var found := JlightObject.LookupAttribute(o, name, chain);
      assert JlightObject.Objects(chain) == objects;
      var stored := thread.context.SetRegister(to, if found.Some? then found.value else nilProto);
      return Success(());
    }

    /** `Store(object, key, value)` when the object is not an array or the
        key not a number: a key that is no string object panics and
        nothing changes. */
    method StoreAttribute(o: Object, key: Pointer, valueReg: nat) returns (r: Result<()>)
      requires valueReg < thread.context.registers.Length
      modifies o
      ensures r.Success? <==> old(JlightObject.AsString(key)).Success?
      ensures r.Success? ==> o.LookupInSelf(old(JlightObject.AsString(key)).value) == Some(thread.context.registers[valueReg])
      ensures r.Failure? ==> o.attributes == old(o.attributes)
      ensures o.prototype == old(o.prototype) && o.value == old(o.value)
    {
      var name :- JlightObject.AsString(key);
      o.AddAttribute(name, thread.context.registers[valueReg]);
      return Success(());
    }

    // -------------------------------------------------------------------------
    // Upvalues and stack slots

    /** `LoadU(r0, r1)`: the register receives upvalue `r1`; a missing
        upvalue is an out-of-bounds panic, and nothing changes. */
    method LoadU(r0: nat, r1: nat) returns (r: Result<()>)
      requires r0 < thread.context.registers.Length
      modifies thread.context.registers
      ensures r.Success? <==> r1 < |thread.context.upvalues|
      ensures r.Success? ==>
        thread.context.registers[..] == old(thread.context.registers[..])[r0 := thread.context.upvalues[r1]]
      ensures r.Failure? ==> thread.context.registers[..] == old(thread.context.registers[..])
    {
      if r1 >= |thread.context.upvalues| {
        return Failure("index out of bounds");
      }
      var stored := thread.context.SetRegister(r0, thread.context.upvalues[r1]);
      return Success(());
    }

    /** `StoreU(r0, r1)`: upvalue `r1` receives the register; a missing
        upvalue panics and nothing changes. */
    method StoreU(r0: nat, r1: nat) returns (r: Result<()>)
      requires r0 < thread.context.registers.Length
      modifies thread.context
      ensures r.Success? <==> r1 < |old(thread.context.upvalues)|
      ensures r.Success? ==> thread.context.upvalues == old(thread.context.upvalues)[r1 := thread.context.registers[r0]]
      ensures r.Failure? ==> thread.context.upvalues == old(thread.context.upvalues)
      ensures thread.context.stack == old(thread.context.stack)
    {
      var c := thread.context;
      if r1 >= |c.upvalues| {
        return Failure("index out of bounds");
      }
      c.upvalues := c.upvalues[r1 := c.registers[r0]];
      return Success(());
    }

    /** `LoadStack(r0, ss0)`: the register receives stack slot `ss0`; a
        missing slot panics and nothing changes. */
    method LoadStack(r0: nat, ss0: nat) returns (r: Result<()>)
      requires r0 < thread.context.registers.Length
      modifies thread.context.registers
      ensures r.Success? <==> ss0 < |thread.context.stack|
      ensures r.Success? ==>
        thread.context.registers[..] == old(thread.context.registers[..])[r0 := thread.context.stack[ss0]]
      ensures r.Failure? ==> thread.context.registers[..] == old(thread.context.registers[..])
    {
      if ss0 >= |thread.context.stack| {
        return Failure("index out of bounds");
      }
      var stored := thread.context.SetRegister(r0, thread.context.stack[ss0]);
      return Success(());
    }

    /** `StoreStack(r0, ss0)`: stack slot `ss0` receives the register; a
        missing slot panics and nothing changes. */
    method StoreStack(r0: nat, ss0: nat) returns (r: Result<()>)
      requires r0 < thread.context.registers.Length
      modifies thread.context
      ensures r.Success? <==> ss0 < |old(thread.context.stack)|
      ensures r.Success? ==> thread.context.stack == old(thread.context.stack)[ss0 := thread.context.registers[r0]]
      ensures r.Failure? ==> thread.context.stack == old(thread.context.stack)
      ensures thread.context.upvalues == old(thread.context.upvalues)
    {
      var c := thread.context;
      if ss0 >= |c.stack| {
        return Failure("index out of bounds");
      }
      c.stack := c.stack[ss0 := c.registers[r0]];
      return Success(());
    }

    // -------------------------------------------------------------------------
    // Jumps

    /** `Goto(block)`: the first instruction of `block`. */
    method Goto(block: nat)
      modifies this
      ensures bindex == block && index == 0
    {
      bindex := block;
      index := 0;
    }

    /** `ConditionalGoto(r0, x, y)`: the start of `y` when the value is
        false, of `x` otherwise. */
    method ConditionalGoto(r0: nat, x: nat, y: nat)
      requires r0 < thread.context.registers.Length
      modifies this
      ensures index == 0
      ensures bindex == if JlightObject.IsFalse(thread.context.registers[r0], nilProto) then y else x
    {
      var value := thread.context.Register(r0);
      if JlightObject.IsFalse(value, nilProto) {
        bindex := y;
        index := 0;
      } else {
        bindex := x;
        index := 0;
      }
    }

    /** `GotoIfFalse(r0, block)`: the block changes, the instruction index
        does not. */
    method GotoIfFalse(r0: nat, block: nat)
      requires r0 < thread.context.registers.Length
      modifies this
      ensures index == old(index)
      ensures bindex == if JlightObject.IsFalse(thread.context.registers[r0], nilProto) then block else old(bindex)
    {
      var value := thread.context.Register(r0);
      if JlightObject.IsFalse(value, nilProto) {
        bindex := block;
      }
    }

    /** `GotoIfTrue(r0, block)`: the mirror image of `GotoIfFalse`. */
    method GotoIfTrue(r0: nat, block: nat)
      requires r0 < thread.context.registers.Length
      modifies this
      ensures index == old(index)
      ensures bindex == if JlightObject.IsFalse(thread.context.registers[r0], nilProto) then old(bindex) else block
    {
      var value := thread.context.Register(r0);
      if !JlightObject.IsFalse(value, nilProto) {
        bindex := block;
      }
    }

    // -------------------------------------------------------------------------
    // Closures

    /** `MakeEnv(function, size)`: `size` values popped (an empty stack
        panics) become the function's upvalues, the last pushed first; a
        register that does not hold a function is unreachable. */
    method MakeEnv(fn: nat, size: nat)
      requires fn < thread.context.registers.Length && size <= |thread.context.stack|
      requires thread.context.registers[fn].Ref?
      requires thread.context.registers[fn].obj.value.Function?
      modifies thread.context, thread.context.registers[fn].obj
      ensures var f := old(thread.context.registers[fn].obj.value.f);
        thread.context.registers[fn].obj.value ==
          JlightObject.Function(f.(upvalues := PopN(old(thread.context.stack), size, nilProto).0))
      ensures thread.context.stack == PopN(old(thread.context.stack), size, nilProto).1
    {
      var values := PopArguments(size);
      var o := thread.context.Register(fn).obj;
      o.value := JlightObject.Function(o.value.f.(upvalues := values));
    }

    // -------------------------------------------------------------------------
    // Return

    /** `Return(value)`. A context marked `terminate_upon_return` ends the
        run with the value (nil when there is none). Otherwise the value goes
        into the caller's return register and the context is popped; popping
        the root ends the run with nil, anything else resumes the caller. */
    method Return(value: Option<nat>, ghost chain: seq<Context>) returns (exit: Exit)
      requires ContextChain(chain) && chain[0] == thread.context
      requires value.Some? ==> value.value < thread.context.registers.Length
      requires thread.context.returnRegister.Some? && thread.context.parent != null ==>
        thread.context.returnRegister.value < thread.context.parent.registers.Length
      modifies this, thread, thread.context,
        if |chain| > 1 then {chain[1].registers} else {}
      ensures old(thread.context.terminateUponReturn) ==>
        exit == Returned(old(ReturnedValue(thread.context, value, nilProto))) &&
        thread.context == old(thread.context)
      ensures !old(thread.context.terminateUponReturn) ==>
        (exit.Returned? <==> |chain| == 1) &&
        (exit.Returned? ==> exit.p == nilProto && thread.context == chain[0]) &&
        (|chain| > 1 ==>
          thread.context == chain[1] && ContextChain(chain[1..]) &&
          index == chain[1].ip && bindex == chain[1].bp &&
          chain[1].registers[..] ==
            if old(chain[0].returnRegister).Some?
            then old(chain[1].registers[..])[old(chain[0].returnRegister).value :=
                   old(ReturnedValue(chain[0], value, nilProto))]
            else old(chain[1].registers[..]))
    {
      var c := thread.context;
      var result := ReturnedValue(c, value, nilProto);
      if c.terminateUponReturn {
        return Returned(result);
      }
      ChainRoot(chain);
      if c.returnRegister.Some? && c.parent != null {
        var stored := c.parent.SetRegister(c.returnRegister.value, result);
      }
      var isTop := thread.PopContext(chain);
      if isTop {
        return Returned(nilProto);
      }
      ResetContext();
      exit := Continue;
    }

    // -------------------------------------------------------------------------
    // Boolean operators

    /** `BoolAnd(r0, r1, r2)`: a new boolean, true when neither operand is
        false. */
    method BoolAnd(r0: nat, r1: nat, r2: nat)
      requires r0 < thread.context.registers.Length && r1 < thread.context.registers.Length
      requires r2 < thread.context.registers.Length
      modifies thread.context.registers
      ensures var p := thread.context.registers[r0];
        p.Ref? && fresh(p.obj) && p.obj.prototype == booleanProto &&
        (!JlightObject.IsFalse(p, nilProto) <==>
          old(!JlightObject.IsFalse(thread.context.registers[r1], nilProto) &&
              !JlightObject.IsFalse(thread.context.registers[r2], nilProto)))
      ensures forall i :: 0 <= i < thread.context.registers.Length && i != r0 ==>
        thread.context.registers[i] == old(thread.context.registers[i])
    {
      var x := !JlightObject.IsFalse(thread.context.Register(r1), nilProto);
      var y := !JlightObject.IsFalse(thread.context.Register(r2), nilProto);
      var o := new JlightObject.Object(JlightObject.Bool(x && y), booleanProto);
      var stored := thread.context.SetRegister(r0, JlightObject.Ref(o));
    }

    /** `BoolOr(r0, r1, r2)`: a new boolean, true when either operand is not
        false. */
    method BoolOr(r0: nat, r1: nat, r2: nat)
      requires r0 < thread.context.registers.Length && r1 < thread.context.registers.Length
      requires r2 < thread.context.registers.Length
      modifies thread.context.registers
      ensures var p := thread.context.registers[r0];
        p.Ref? && fresh(p.obj) && p.obj.prototype == booleanProto &&
        (!JlightObject.IsFalse(p, nilProto) <==>
          old(!JlightObject.IsFalse(thread.context.registers[r1], nilProto) ||
              !JlightObject.IsFalse(thread.context.registers[r2], nilProto)))
      ensures forall i :: 0 <= i < thread.context.registers.Length && i != r0 ==>
        thread.context.registers[i] == old(thread.context.registers[i])
    {
      var x := !JlightObject.IsFalse(thread.context.Register(r1), nilProto);
      var y := !JlightObject.IsFalse(thread.context.Register(r2), nilProto);
      var o := new JlightObject.Object(JlightObject.Bool(x || y), booleanProto);
      var stored := thread.context.SetRegister(r0, JlightObject.Ref(o));
    }
  }

  /** A suspended context resumes where it was left when `reset_context!`
      is invoked as at every site but the first; as `run` first invokes it,
      a context saved at instruction 3 of block 1 resumes at instruction 1
      of block 3. */
  method SuspendAndResume(interp: Interpreter) returns (asWritten: (nat, nat), resumed: (nat, nat))
    modifies interp, interp.thread.context
    ensures resumed == (old(interp.index), old(interp.bindex))
    ensures asWritten == (old(interp.bindex), old(interp.index))
  {
    interp.SaveContext();
    interp.ResetContextAsWritten();
    asWritten := (interp.index, interp.bindex);
    interp.ResetContext();
    resumed := (interp.index, interp.bindex);
  }
}
