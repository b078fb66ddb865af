/** Processes of the `waffle` VM (`vm/src/runtime/process.rs`): a stack of
    contexts linked through `parent`, the catch tables installed by the
    running code, a status word and an optional pinned thread id. */
module WaffleProcess {
  import opened Wrappers
  import opened WaffleContext
  import ProcessStatus

  /** `CatchTable`: where a thrown value is caught — the block to resume
      at, the context to resume in and the register receiving the value. */
  datatype CatchTable = CatchTable(jumpTo: nat, context: Context, register: nat)

  class Process {
    var context: Context
    var catchTables: seq<CatchTable>
    const status: ProcessStatus.Status
    var threadId: Option<nat>

    /** A process running `c`, with no catch table and not pinned. */
    constructor (c: Context)
      ensures context == c && catchTables == [] && threadId == Option.None
      ensures fresh(status) && status.bits == ProcessStatus.NORMAL
    {
      context := c;
      catchTables := [];
      status := new ProcessStatus.Status();
      threadId := Option.None;
    }

    /** `push_context`: `c` becomes the current context and the previous
        one its parent. */
    method PushContext(c: Context, ghost chain: seq<Context>)
      requires ContextChain(chain) && chain[0] == context && c !in chain
      modifies this`context, c`parent
      ensures context == c && c.parent == old(context)
      ensures ContextChain([c] + chain)
    {
      var previous := context;
      context := c;
      c.parent := previous;
      assert ([c] + chain)[1..] == chain;
    }

    /** `pop_context`: the parent becomes current and is detached from the
        popped context, the result false; at the top context nothing
        changes and the result is true. */
    method PopContext(ghost chain: seq<Context>) returns (isTop: bool)
      requires ContextChain(chain) && chain[0] == context
      modifies this`context, context`parent
      ensures isTop <==> |chain| == 1
      ensures isTop ==> context == old(context) && context.parent == null
      ensures !isTop ==> context == chain[1] && chain[0].parent == null && ContextChain(chain[1..])
    {
      ChainRoot(chain);
      if context.parent != null {
        var parent := context.parent;
        context.parent := null;
        context := parent;
        isTop := false;
        assert forall i :: 1 <= i < |chain| ==> chain[i] != chain[0];
        assert forall i :: 0 <= i < |chain| - 1 ==> chain[1..][i] == chain[i + 1];
      } else {
        isTop := true;
      }
    }

    /** `thread_id`. */
    function ThreadId(): Option<nat>
      reads this
    {
      threadId
    }

    /** `set_thread_id(id)`: `thread_id()` is then `Some(id)`. */
    method SetThreadId(id: nat)
      requires id < 0x100
      modifies this`threadId
      ensures ThreadId() == Some(id)
    {
      threadId := Some(id);
    }

    /** `unset_thread_id`: `thread_id()` is then none. */
    method UnsetThreadId()
      modifies this`threadId
      ensures ThreadId() == Option.None
    {
      threadId := Option.None;
    }

    /** `set_terminated`: `is_terminated` then holds, and whether the
        process is main or blocking is unchanged. */
    method SetTerminated()
      modifies status
      ensures status.IsTerminated()
      ensures status.IsMain() == old(status.IsMain()) && status.IsBlocking() == old(status.IsBlocking())
    {
      status.SetTerminated();
    }
  }
}
