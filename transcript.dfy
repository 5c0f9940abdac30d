/** The in-memory transcript of the active conversation: an ordered list of
    role-tagged messages, and the three updates the chat hook applies to it
    through its state setter (append, overwrite of the last assistant
    message, drop of the last element). */
module Transcript {

  datatype Role = User | Assistant

  datatype Message = Message(role: Role, content: string)

  /** The callback of `setMessages` that shows the reply so far: when the
      last message is an assistant message its content becomes `content`,
      otherwise the transcript is returned as it is. */
  function UpdateLast(msgs: seq<Message>, content: string): (r: seq<Message>)
    ensures |r| == |msgs|
    ensures forall k :: 0 <= k < |msgs| - 1 ==> r[k] == msgs[k]
    ensures |msgs| > 0 && msgs[|msgs| - 1].role == Assistant ==> r[|msgs| - 1] == Message(Assistant, content)
    ensures (|msgs| == 0 || msgs[|msgs| - 1].role != Assistant) ==> r == msgs
  {
    if |msgs| > 0 && msgs[|msgs| - 1].role == Assistant
    then msgs[..|msgs| - 1] + [Message(Assistant, content)]
    else msgs
  }

  /** `prev.slice(0, -1)`: everything but the last element (nothing, for an
      empty transcript). */
  function DropLast(msgs: seq<Message>): (r: seq<Message>)
    ensures |r| == if |msgs| == 0 then 0 else |msgs| - 1
    ensures forall k :: 0 <= k < |r| ==> r[k] == msgs[k]
  {
    if |msgs| == 0 then [] else msgs[..|msgs| - 1]
  }

  /** Rolling back undoes exactly one append. */
  lemma DropLastUndoesAppend(msgs: seq<Message>, m: Message)
    ensures DropLast(msgs + [m]) == msgs
  {
    assert (msgs + [m])[..|msgs|] == msgs;
  }

  /** Each delta overwrites the whole reply so far, so only the latest
      update is visible: two updates in a row are the second one. */
  lemma UpdateLastTwice(msgs: seq<Message>, a: string, b: string)
    ensures UpdateLast(UpdateLast(msgs, a), b) == UpdateLast(msgs, b)
  {
    if |msgs| > 0 && msgs[|msgs| - 1].role == Assistant {
      var once := UpdateLast(msgs, a);
      assert once[..|once| - 1] == msgs[..|msgs| - 1];
    }
  }

  /** The placeholder appended before streaming receives every update. */
  lemma UpdatePlaceholder(prior: seq<Message>, old_content: string, content: string)
    ensures UpdateLast(prior + [Message(Assistant, old_content)], content) == prior + [Message(Assistant, content)]
  {
    assert (prior + [Message(Assistant, old_content)])[..|prior|] == prior;
  }
}
