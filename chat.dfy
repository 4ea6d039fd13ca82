/** The records the frontend components exchange (the Conversation and Message
    interfaces of the React components), timestamps as milliseconds since the
    epoch, and the browser-global slot that carries a manual reply from the
    chat view to the page. */
module Chat {
  import opened Text
  import opened Choices

  const MINUTE: int := 60 * 1000
  const HOUR: int := 60 * MINUTE
  const DAY: int := 24 * HOUR

  /** Math.abs on integers. */
  function Abs(x: int): (r: nat)
    ensures r == x || r == -x
  {
    if x < 0 then -x else x
  }

  datatype Message = Message(id: string, direction: Direction, content: string, createdAt: int,
                             conversationId: string)

  /** `messages`, `createdAt` and `updatedAt` are optional in the interfaces;
      None stands for an absent (or empty) field. */
  datatype Conversation = Conversation(id: string, state: State, messages: Option<seq<Message>>,
                                       createdAt: Option<int>, updatedAt: Option<int>)

  /** `conv.messages ?? []`. */
  function MessagesOf(c: Conversation): (r: seq<Message>)
    ensures c.messages.Some? ==> r == c.messages.value
    ensures c.messages.None? ==> r == []
  {
    if c.messages.Some? then c.messages.value else []
  }

  /** `list.filter(c => c.state === st).length`. */
  function CountState(s: seq<Conversation>, st: State): (n: nat)
    ensures n <= |s|
  {
    if s == [] then 0 else (if s[0].state == st then 1 else 0) + CountState(s[1..], st)
  }

  /** Every conversation is OPEN or CLOSED, so the two counts add up to the total. */
  lemma {:induction false} CountStatesPartition(s: seq<Conversation>)
    ensures CountState(s, Open) + CountState(s, Closed) == |s|
  {
    if s != [] {
      CountStatesPartition(s[1..]);
    }
  }

  /** `window._tempSimulatedMessage`: set by the chat view, consumed by the page. */
  class Window {
    var tempSimulatedMessage: Option<string>

    constructor ()
      ensures tempSimulatedMessage == None
    {
      tempSimulatedMessage := None;
    }
  }
}
