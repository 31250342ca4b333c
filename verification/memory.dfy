/** The conversation memory: an append-only, ordered log of role-tagged
    entries that can be read back whole or emptied. */
module Memory {
  import opened JsonPath

  const UserRole := "user"
  const AssistantRole := "assistant"

  /** One `{"role": ..., "content": ...}` entry. The content is whatever the
      caller stored: the user's line as a string, or the evaluator's answer as
      it came out of the response body. */
  datatype Message = Message(role: string, content: Json)

  datatype ChatMemory = ChatMemory(history: seq<Message>) {

    /** A fresh memory holds no entries. */
    static function New(): (m: ChatMemory)
      ensures |m.history| == 0
    {
      ChatMemory([])
    }

    /** Appends one entry at the end; every earlier entry keeps its place. */
    function AddMessage(role: string, content: Json): (m: ChatMemory)
      ensures |m.history| == |history| + 1
      ensures m.history[..|history|] == history
      ensures m.history[|history|] == Message(role, content)
    {
      ChatMemory(history + [Message(role, content)])
    }

    /** The whole log, oldest entry first. */
    function GetHistory(): seq<Message> {
      history
    }

    /** Empties the log, whatever it held. */
    function ClearHistory(): (m: ChatMemory)
      ensures |m.GetHistory()| == 0
    {
      ChatMemory([])
    }
  }

  /** A run of `add_message` calls, one per message, in order. */
  function AddAll(m: ChatMemory, msgs: seq<Message>): ChatMemory
    decreases |msgs|
  {
    if |msgs| == 0 then m
    else AddAll(m.AddMessage(msgs[0].role, msgs[0].content), msgs[1..])
  }

  /** The log is exactly the messages in the order they were added: appending
      never reorders, drops or rewrites an earlier entry. */
  lemma {:induction false} AddAllIsConcatenation(m: ChatMemory, msgs: seq<Message>)
    ensures AddAll(m, msgs).GetHistory() == m.GetHistory() + msgs
    decreases |msgs|
  {
    if |msgs| > 0 {
      var m' := m.AddMessage(msgs[0].role, msgs[0].content);
      AddAllIsConcatenation(m', msgs[1..]);
      assert m'.history == m.history + [msgs[0]];
      assert msgs == [msgs[0]] + msgs[1..];
    }
  }

  /** Clearing twice leaves the same memory as clearing once, and clearing
      forgets where the memory started from. */
  lemma ClearIsIdempotent(m: ChatMemory, n: ChatMemory)
    ensures m.ClearHistory().ClearHistory() == m.ClearHistory()
    ensures m.ClearHistory() == n.ClearHistory() == ChatMemory.New()
  {
  }

  /** After a clear, the log holds only what was added since. */
  lemma ClearThenAdd(m: ChatMemory, msgs: seq<Message>)
    ensures AddAll(m.ClearHistory(), msgs).GetHistory() == msgs
  {
    AddAllIsConcatenation(m.ClearHistory(), msgs);
  }
}
