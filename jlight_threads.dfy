/** Threads of the jlight VM (`jlight-vm/src/runtime/threads.rs`): each
    thread owns a stack of contexts, linked through their `parent` fields,
    and the VM keeps the list of attached threads. */
module JlightThreads {
  import opened RegisterFile
  import opened JlightContext

  class JThread {
    /** The current context; its callers follow through `parent`. */
    var context: Context

    /** `JThread::new`: a single fresh context. */
    constructor ()
      ensures fresh(context) && context.parent == null && ContextChain([context])
    {
      context := new Context();
    }

    /** `push_context`: `c` becomes the current context and the previous
        one its parent. */
    method PushContext(c: Context, ghost chain: seq<Context>)
      requires ContextChain(chain) && chain[0] == context && c !in chain
      modifies this`context, c`parent
      ensures context == c && c.parent == old(context)
      ensures ContextChain([c] + chain)
    {
      var previous := context;
      context := c;
      c.parent := previous;
      assert ([c] + chain)[1..] == chain;
    }

    /** `pop_context`: the parent becomes current and is detached from the
        popped context; at the root nothing changes and the result is true. */
    method PopContext(ghost chain: seq<Context>) returns (isTop: bool)
      requires ContextChain(chain) && chain[0] == context
      modifies this`context, context`parent
      ensures isTop <==> |chain| == 1
      ensures isTop ==> context == old(context) && context.parent == null
      ensures !isTop ==> context == chain[1] && chain[0].parent == null && ContextChain(chain[1..])
    {
      ChainRoot(chain);
      if context.parent != null {
        var parent := context.parent;
        context.parent := null;
        context := parent;
        isTop := false;
        assert forall i :: 1 <= i < |chain| ==> chain[i] != chain[0];
        assert forall i :: 0 <= i < |chain| - 1 ==> chain[1..][i] == chain[i + 1];
      } else {
        isTop := true;
      }
    }

    /** `each_pointer`: the pointers of the current context and its callers. */
    method EachPointer(ghost chain: seq<Context>) returns (visited: seq<Pointer>)
      requires ContextChain(chain) && chain[0] == context
      ensures visited == AllPointers(chain)
    {
      visited := JlightContext.EachPointer(context, chain);
    }
  }

  /** A call and its return: pushing a context and popping it again leaves
      the thread in its previous context, with the stack of callers intact. */
  method PushThenPop(t: JThread, c: Context, ghost chain: seq<Context>) returns (isTop: bool)
    requires ContextChain(chain) && chain[0] == t.context && c !in chain
    modifies t`context, c`parent, t.context`parent
    ensures !isTop && t.context == old(t.context) && ContextChain(chain)
  {
    t.PushContext(c, chain);
    isTop := t.PopContext([c] + chain);
    assert ([c] + chain)[1..] == chain;
  }

  class Threads {
    var threads: seq<JThread>

    constructor ()
      ensures threads == []
    {
      threads := [];
    }

    /** `attach_thread`: appends. */
    method AttachThread(t: JThread)
      modifies this
      ensures threads == old(threads) + [t]
    {
      threads := threads + [t];
    }

    /** `detach_current_thread`: every entry that is `current` is removed;
        the others stay, in order. */
    method DetachCurrentThread(current: JThread)
      modifies this
      ensures threads == Filter(old(threads), t => t != current)
      ensures current !in threads
      ensures forall t :: t in threads <==> t in old(threads) && t != current
    {
      FilterMembers(threads, t => t != current);
      threads := Filter(threads, t => t != current);
    }
  }

  /** Attaching a thread and detaching it again restores the list, when the
      thread was not attached before. */
  lemma AttachThenDetach(threads: seq<JThread>, t: JThread)
    requires t !in threads
    ensures Filter(threads + [t], u => u != t) == threads
  {
    FilterAppend(threads, [t], u => u != t);
    FilterAllPass(threads, u => u != t);
    assert [t][1..] == [];
  }
}
