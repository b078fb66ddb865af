/** The part of the `waffle` VM's shared state (`vm/src/runtime/state.rs`)
    that native functions go through: they are allocated in the permanent
    heap with the function prototype. The worker-thread count the state
    computes is `WorkerThreads.Count`. */
module VmState {
  import opened Wrappers
  import opened WaffleCell
  import VmHeap

  class State {
    const permHeap: VmHeap.PermanentHeap
    /** `function_prototype`, as the cell it points to. */
    const functionPrototype: CellPointer

    constructor (permHeap: VmHeap.PermanentHeap, functionPrototype: CellPointer)
      ensures this.permHeap == permHeap && this.functionPrototype == functionPrototype
    {
      this.permHeap := permHeap;
      this.functionPrototype := functionPrototype;
    }

    /** `allocate_native_fn(native_fn, name, argc)` and
        `allocate_native_fn_with_name`: a native function named `name` with
        `argc` arguments, no upvalues and no code, in a new permanent cell
        whose prototype is the function prototype. The native code pointer
        itself is not modelled. */
    method AllocateNativeFn(name: string, argc: int, cellSize: nat, osPage: nat, data: nat)
      returns (c: CellPointer)
      requires permHeap.Valid() && osPage > 0
      modifies permHeap`cells, permHeap.space`size, permHeap.space`current, permHeap.space`pages
      modifies set q | q in permHeap.space.pages :: q`top
      ensures permHeap.Valid() && c.permanent && c.cell != null && fresh(c.cell)
      ensures c.cell.value == Function(FunctionValue(name, [], argc, true, 0))
      ensures c.cell.prototype == Some(functionPrototype)
      ensures permHeap.cells == old(permHeap.cells) + [c]
    {
      var fn := FunctionValue(name, [], argc, true, 0);
      var cell := new Cell(Function(fn), Some(functionPrototype));
      c := permHeap.Allocate(cell, cellSize, osPage, data);
    }
  }
}
