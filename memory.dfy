/** The persistent memory store: a hot in-process cache, a FIFO queue of pending
    writes, and the durable history table that a single storage worker fills from the
    queue. The table is an in-memory sequence of rows in `id` order. */
module Memory {
  import opened Messages

  /** The only operation tag the queue carries. */
  const ADD_MESSAGE: string := "add_message"

  /** A queued `(action, params)` pair. */
  datatype QueueItem = QueueItem(action: string, params: Message)

  /** The rows the storage worker inserts while consuming `items`, in queue order:
      one per `add_message` item; items with any other tag are consumed without a write. */
  function Applied(items: seq<QueueItem>): seq<Message>
  {
    if items == [] then []
    else (if items[0].action == ADD_MESSAGE then [items[0].params] else []) + Applied(items[1..])
  }

  lemma {:induction false} AppliedConcat(a: seq<QueueItem>, b: seq<QueueItem>)
    ensures Applied(a + b) == Applied(a) + Applied(b)
  {
    if a != [] {
      assert (a + b)[1..] == a[1..] + b;
      AppliedConcat(a[1..], b);
    } else {
      assert a + b == b;
    }
  }

  /** The queue items that `add_message` enqueues for `msgs`, one call per message. */
  function Enqueued(msgs: seq<Message>): (items: seq<QueueItem>)
    ensures |items| == |msgs|
  {
    if msgs == [] then [] else [QueueItem(ADD_MESSAGE, msgs[0])] + Enqueued(msgs[1..])
  }

  /** Draining the queue writes the messages in exactly the order they were added. */
  lemma {:induction false} DrainKeepsCallOrder(msgs: seq<Message>)
    ensures Applied(Enqueued(msgs)) == msgs
  {
    if msgs != [] {
      DrainKeepsCallOrder(msgs[1..]);
      assert Enqueued(msgs)[1..] == Enqueued(msgs[1..]);
    }
  }

  function Reverse<T>(s: seq<T>): (r: seq<T>)
    ensures |r| == |s|
    ensures forall k :: 0 <= k < |s| ==> r[k] == s[|s| - 1 - k]
  {
    if s == [] then [] else Reverse(s[1..]) + [s[0]]
  }

  /** The context query: the rows newest first (`ORDER BY id DESC`), at most
      `maxLength` of them (`LIMIT`; a negative limit means no limit), turned back into
      chronological order. The result is the `min(maxLength, |rows|)` most recent rows,
      oldest first. */
  function RecentRows(rows: seq<Message>, maxLength: int): (context: seq<Message>)
    ensures |context| == if 0 <= maxLength < |rows| then maxLength else |rows|
    ensures context == rows[|rows| - |context|..]
  {
    var newestFirst := Reverse(rows);
    var fetched := if 0 <= maxLength < |newestFirst| then newestFirst[..maxLength] else newestFirst;
    Reverse(fetched)
  }

  class DatabaseManager {
    var queue: seq<QueueItem>
    var rows: seq<Message>
    /** Every message handed to storage so far, in call order: the rows already
        written followed by those still waiting in the queue. */
    ghost var submitted: seq<Message>

    ghost predicate Valid()
      reads this
    {
      rows + Applied(queue) == submitted
    }

    /** Opens the table holding `stored` (the history of earlier runs) and an empty queue. */
    constructor (stored: seq<Message>)
      ensures Valid()
      ensures rows == stored && queue == [] && submitted == stored
    {
      rows := stored;
      queue := [];
      submitted := stored;
    }

    /** Enqueues one `add_message` item; nothing is written yet. */
    method AddMessage(role: Role, content: string)
      requires Valid()
      modifies this
      ensures Valid()
      ensures queue == old(queue) + [QueueItem(ADD_MESSAGE, Message(role, content))]
      ensures rows == old(rows)
      ensures submitted == old(submitted) + [Message(role, content)]
    {
      AppliedConcat(queue, [QueueItem(ADD_MESSAGE, Message(role, content))]);
      queue := queue + [QueueItem(ADD_MESSAGE, Message(role, content))];
      submitted := submitted + [Message(role, content)];
    }

    /** One turn of the storage worker: takes the oldest item and, if it is an
        `add_message`, inserts its row. With an empty queue the worker would wait; here
        nothing happens. */
    method ProcessNext() returns (processed: bool)
      requires Valid()
      modifies this`queue, this`rows
      ensures Valid()
      ensures processed <==> old(queue) != []
      ensures processed ==> queue == old(queue)[1..] && rows == old(rows) + Applied(old(queue)[..1])
      ensures !processed ==> queue == old(queue) && rows == old(rows)
    {
      processed := queue != [];
      if processed {
        var item := queue[0];
        AppliedConcat(queue[..1], queue[1..]);
        assert queue[..1] + queue[1..] == queue;
        queue := queue[1..];
        if item.action == ADD_MESSAGE {
          rows := rows + [item.params];
        }
      }
    }

    /** Runs the storage worker until the queue is empty: every pending write is
        applied in the order it was enqueued, and then the table holds exactly what was
        submitted. */
    method ProcessQueue()
      requires Valid()
      modifies this`queue, this`rows
      ensures Valid()
      ensures queue == [] && rows == old(rows) + Applied(old(queue))
      ensures rows == submitted
    {
      while queue != []
        invariant Valid()
        invariant submitted == old(submitted)
        decreases |queue|
      {
        var _ := ProcessNext();
      }
    }

    /** `get_context`: the most recent rows of the table, oldest first. */
    function GetContext(maxLength: int): (context: seq<Message>)
      reads this
      ensures |context| == if 0 <= maxLength < |rows| then maxLength else |rows|
      ensures context == rows[|rows| - |context|..]
    {
      RecentRows(rows, maxLength)
    }
  }

  /** The memory system the conversation client uses: a hot cache in front of the
      database manager. Reads go to the table, not to the cache. */
  class MemorySystem {
    const dbManager: DatabaseManager
    var context: seq<Message>

    ghost predicate Valid()
      reads this, dbManager
    {
      dbManager.Valid()
    }

    constructor (stored: seq<Message>)
      ensures Valid() && fresh(dbManager)
      ensures context == []
      ensures dbManager.rows == stored && dbManager.queue == [] && dbManager.submitted == stored
    {
      dbManager := new DatabaseManager(stored);
      context := [];
    }

    /** Appends to the hot cache and queues exactly one durable write. */
    method AddMessage(role: Role, content: string)
      requires Valid()
      modifies this`context, dbManager
      ensures Valid()
      ensures context == old(context) + [Message(role, content)]
      ensures dbManager.queue == old(dbManager.queue) + [QueueItem(ADD_MESSAGE, Message(role, content))]
      ensures dbManager.rows == old(dbManager.rows)
      ensures dbManager.submitted == old(dbManager.submitted) + [Message(role, content)]
    {
      context := context + [Message(role, content)];
      dbManager.AddMessage(role, content);
    }

    /** `get_context`, read through to the table. */
    function GetContext(maxLength: int): (ctx: seq<Message>)
      reads this, dbManager
      ensures |ctx| == if 0 <= maxLength < |dbManager.rows| then maxLength else |dbManager.rows|
      ensures ctx == dbManager.rows[|dbManager.rows| - |ctx|..]
    {
      dbManager.GetContext(maxLength)
    }
  }
}
