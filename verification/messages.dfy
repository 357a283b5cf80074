// A chat message as the evaluator and the training scripts exchange it:
// a role, a content string and an optional speaker name.

module Messages {
  import opened Basics
  import opened Text

  datatype Message = Message(role: String, content: String, name: Option<String>)

  function SystemMsg(content: String): Message { Message("system", content, None) }
  function UserMsg(content: String): Message { Message("user", content, None) }
  function AssistantMsg(content: String): Message { Message("assistant", content, None) }

  /** A name that is present and non-empty (Python truthiness). */
  predicate HasName(m: Message) {
    m.name.Some? && m.name.value != []
  }

  function CountRole(msgs: seq<Message>, role: String): (n: nat)
    ensures n <= |msgs|
  {
    if msgs == [] then 0
    else CountRole(msgs[..|msgs| - 1], role) + (if msgs[|msgs| - 1].role == role then 1 else 0)
  }

  /** The count of a role, one message shorter. */
  lemma CountRoleLast(msgs: seq<Message>, role: String)
    requires msgs != []
    ensures CountRole(msgs, role) ==
      CountRole(msgs[..|msgs| - 1], role) + (if msgs[|msgs| - 1].role == role then 1 else 0)
  {
  }

  lemma CountRoleAppend(msgs: seq<Message>, m: Message, role: String)
    ensures CountRole(msgs + [m], role) == CountRole(msgs, role) + (if m.role == role then 1 else 0)
  {
    assert (msgs + [m])[..|msgs|] == msgs;
  }

  /** Python's `xs[:k]` for any integer `k`. */
  function PyPrefix<T>(xs: seq<T>, k: int): (r: seq<T>)
    ensures 0 <= k <= |xs| ==> r == xs[..k]
    ensures k > |xs| ==> r == xs
  {
    if k >= |xs| then xs
    else if k >= 0 then xs[..k]
    else if -k >= |xs| then []
    else xs[..|xs| + k]
  }
}
