/** Processes of the `jlightc` VM (`src/process.rs`): each owns a stack of
    contexts linked through `parent`, a FIFO mailbox, a status word, the
    catch entries of the running code and, when pinned, the id of the
    thread it must run on. */
module JlightcProcess {
  import opened Wrappers
  import opened JlightcContext
  import ProcessStatus

  /** A message is an object pointer. */
  type Message = JlightcContext.Pointer

  /** A process's mailbox: messages in the order they were sent. */
  class Mailbox {
    var messages: seq<Message>

    /** `Mailbox::new`. */
    constructor ()
      ensures messages == [] && !HasMessages()
    {
      messages := [];
    }

    /** `send`: the message joins the back of the queue. */
    method Send(m: Message)
      modifies this
      ensures messages == old(messages) + [m]
      ensures HasMessages()
    {
      messages := messages + [m];
    }

    /** `receive`: the oldest message, removed from the queue, or none when
        the mailbox is empty. */
    method Receive() returns (r: Option<Message>)
      modifies this
      ensures old(messages) == [] ==> r == Option.None && messages == []
      ensures old(messages) != [] ==> r == Some(old(messages)[0]) && messages == old(messages)[1..]
    {
      if messages == [] {
        r := Option.None;
      } else {
        r := Some(messages[0]);
        messages := messages[1..];
      }
    }

    /** `has_messages`. */
    predicate HasMessages()
      reads this
    {
      messages != []
    }

    /** `each_pointer`: every queued message, oldest first. */
    method EachPointer() returns (visited: seq<Message>)
      ensures visited == messages
    {
      visited := [];
      for i := 0 to |messages|
        invariant visited == messages[..i]
      {
        visited := visited + [messages[i]];
      }
    }
  }

  /** The mailbox is first in, first out: receiving until it is empty yields
      the messages in the order they were sent. */
  method ReceiveAll(mb: Mailbox) returns (received: seq<Message>)
    modifies mb
    ensures received == old(mb.messages) && mb.messages == []
  {
    received := [];
    while mb.HasMessages()
      invariant received + mb.messages == old(mb.messages)
      decreases |mb.messages|
    {
      var m := mb.Receive();
      assert [m.value] + mb.messages == old(mb.messages)[|received|..];
      received := received + [m.value];
    }
  }

  /** A `CatchBlock` entry (`src/runtime/machine.rs`): the block to resume
      at and the register that receives the thrown value. */
  datatype CatchEntry = CatchEntry(jumpTo: nat, register: nat)

  class Process {
    var context: Context
    var threadId: Option<nat>
    const mailbox: Mailbox
    const status: ProcessStatus.Status
    var catchEntries: seq<CatchEntry>

    /** A process running `c`, not pinned, with an empty mailbox. */
    constructor (c: Context)
      ensures context == c && threadId == Option.None && catchEntries == []
      ensures fresh(mailbox) && mailbox.messages == []
      ensures fresh(status) && status.bits == ProcessStatus.NORMAL
    {
      context := c;
      threadId := Option.None;
      mailbox := new Mailbox();
      status := new ProcessStatus.Status();
      catchEntries := [];
    }

    /** `push_context`: `c` becomes the current context and the previous
        one its parent. */
    method PushContext(c: Context, ghost chain: seq<Context>)
      requires ContextChain(chain) && chain[0] == context && c !in chain
      modifies this`context, c`parent
      ensures context == c && c.parent == old(context)
      ensures ContextChain([c] + chain)
    {
      var previous := context;
      context := c;
      c.parent := previous;
      assert ([c] + chain)[1..] == chain;
    }

    /** `pop_context`: the parent becomes current and is detached from the
        popped context; at the top context nothing changes and the result
        is true. */
    method PopContext(ghost chain: seq<Context>) returns (isTop: bool)
      requires ContextChain(chain) && chain[0] == context
      modifies this`context, context`parent
      ensures isTop <==> |chain| == 1
      ensures isTop ==> context == old(context) && context.parent == null
      ensures !isTop ==> context == chain[1] && chain[0].parent == null && ContextChain(chain[1..])
    {
      ChainRoot(chain);
      if context.parent != null {
        var parent := context.parent;
        context.parent := null;
        context := parent;
        isTop := false;
        assert forall i :: 1 <= i < |chain| ==> chain[i] != chain[0];
        assert forall i :: 0 <= i < |chain| - 1 ==> chain[1..][i] == chain[i + 1];
      } else {
        isTop := true;
      }
    }

    /** `is_pinned`: the process has a thread id. */
    predicate IsPinned()
      reads this
    {
      threadId.Some?
    }

    /** `set_thread_id`: the process is pinned to thread `id`. */
    method SetThreadId(id: nat)
      requires id < 0x100
      modifies this`threadId
      ensures threadId == Some(id) && IsPinned()
    {
      threadId := Some(id);
    }

    /** `unset_thread_id`: the process is no longer pinned. */
    method UnsetThreadId()
      modifies this`threadId
      ensures threadId == Option.None && !IsPinned()
    {
      threadId := Option.None;
    }
  }

  /** Pinning and unpinning toggle `is_pinned` and touch nothing else of
      the process. */
  method PinThenUnpin(p: Process, id: nat) returns (pinned: bool, after: bool)
    requires id < 0x100
    modifies p`threadId
    ensures pinned && !after
    ensures p.context == old(p.context) && p.catchEntries == old(p.catchEntries)
  {
    p.SetThreadId(id);
    pinned := p.IsPinned();
    p.UnsetThreadId();
    after := p.IsPinned();
  }
}
