/** The AI conversation client: builds the request from the stored context, makes
    one provider call, and commits the exchange to memory only when the call succeeds. */
module Conversation {
  import opened Messages
  import opened Memory

  /** The fixed system instruction that opens every request. */
  const SYSTEM_PROMPT: string := "你是一个温柔体贴的少女，说话风格可爱"
  const MODEL: string := "deepseek-chat"
  /** How many stored messages a request carries (the default of `get_context`). */
  const CONTEXT_WINDOW: int := 5
  /** Prefix of the text returned instead of a reply when the call fails. */
  const ERROR_PREFIX: string := "错误："

  /** The request body sent to the provider (model and messages). */
  datatype Payload = Payload(model: string, messages: seq<Message>)

  /** What one provider call comes to: the first choice's reply text, or the text of
      whatever was raised (transport failure, error status, unexpected body). */
  datatype Response = Ok(reply: string) | Err(error: string)

  /** The message list: the system instruction, then the context, then the new user message. */
  function BuildMessages(context: seq<Message>, message: string): seq<Message>
  {
    [Message(System, SYSTEM_PROMPT)] + context + [Message(User, message)]
  }

  /** The displayable text returned for a failed call: a fixed prefix, then the error. */
  function ErrorText(error: string): string
  {
    ERROR_PREFIX + error
  }

  /** The request carries the system instruction, then the (at most five) most recent
      stored messages in chronological order, then the user's message. */
  lemma RequestWindow(rows: seq<Message>, message: string)
    ensures var messages := BuildMessages(RecentRows(rows, CONTEXT_WINDOW), message);
      && 2 <= |messages| <= CONTEXT_WINDOW + 2
      && messages[0].role == System
      && messages[1..|messages| - 1] == rows[|rows| - (|messages| - 2)..]
      && (|rows| >= CONTEXT_WINDOW ==> |messages| == CONTEXT_WINDOW + 2)
      && messages[|messages| - 1] == Message(User, message)
  {
  }

  /** Once a committed exchange has been written, the next request's context ends with
      that user message and its reply, in that order. */
  lemma {:induction false} CommittedExchangeIsNextContext(rows: seq<Message>, message: string, reply: string)
    ensures var context := RecentRows(rows + [Message(User, message), Message(Assistant, reply)], CONTEXT_WINDOW);
      |context| >= 2 && context[|context| - 2..] == [Message(User, message), Message(Assistant, reply)]
  {
    var all := rows + [Message(User, message), Message(Assistant, reply)];
    var context := RecentRows(all, CONTEXT_WINDOW);
    assert context[|context| - 2..] == all[|all| - 2..];
  }

  class AIChat {
    const memory: MemorySystem

    constructor (memory: MemorySystem)
      ensures this.memory == memory
    {
      this.memory := memory;
    }

    /** Sends `message` with the stored context through the opaque provider call
        `post`. On success returns the reply and adds the user message, then the reply,
        to memory; on failure returns the error text and leaves memory as it was. */
    method SendRequest(message: string, post: Payload -> Response) returns (reply: string)
      requires memory.Valid()
      modifies memory, memory.dbManager
      ensures memory.Valid()
      ensures var response := post(Payload(MODEL, BuildMessages(old(memory.GetContext(CONTEXT_WINDOW)), message)));
        && (response.Ok? ==>
              && reply == response.reply
              && memory.context == old(memory.context) + [Message(User, message), Message(Assistant, response.reply)]
              && memory.dbManager.queue == old(memory.dbManager.queue) + Enqueued([Message(User, message), Message(Assistant, response.reply)])
              && memory.dbManager.rows == old(memory.dbManager.rows)
              && memory.dbManager.submitted == old(memory.dbManager.submitted) + [Message(User, message), Message(Assistant, response.reply)])
        && (response.Err? ==>
              && reply == ErrorText(response.error)
              && unchanged(memory, memory.dbManager))
    {
      var context := [Message(System, SYSTEM_PROMPT)];
      context := context + memory.GetContext(CONTEXT_WINDOW);
      context := context + [Message(User, message)];
      var payload := Payload(MODEL, context);
      var response := post(payload);
      match response
      case Ok(r) =>
        memory.AddMessage(User, message);
        memory.AddMessage(Assistant, r);
        reply := r;
      case Err(e) =>
        reply := ERROR_PREFIX + e;
    }
  }
}
