/**
 * The older message schema: a message carries one of four roles (no "function" role), some
 * metadata that defaults to an empty dictionary, and a thread formats its messages as plain
 * role/content pairs for a chat completion.
 */
module LegacyMessage {
  import opened Wrappers
  import opened Values

  datatype Role = User | Assistant | System | Tool

  function RoleName(r: Role): string {
    match r
    case User => "user"
    case Assistant => "assistant"
    case System => "system"
    case Tool => "tool"
  }

  /** The role names this schema accepts. */
  const ValidRoles: seq<string> := ["user", "assistant", "system", "tool"]

  /** pydantic's refusal of a role outside the literal type, naming what was given. */
  datatype ValidationError = InvalidRole(given: string)

  /** The literal-type check on the `role` field. */
  function ParseRole(name: string): (r: Result<Role, ValidationError>)
    ensures r.Success? <==> name in ValidRoles
    ensures r.Success? ==> RoleName(r.value) == name
    ensures r.Failure? ==> r.error == InvalidRole(name)
  {
    if name == "user" then Success(User)
    else if name == "assistant" then Success(Assistant)
    else if name == "system" then Success(System)
    else if name == "tool" then Success(Tool)
    else Failure(InvalidRole(name))
  }

  /** A message; `metadata` may be given as None explicitly, and is an empty dictionary when not given. */
  datatype Message = Message(role: Role, content: string, metadata: Option<map<string, Value>>)

  /** The metadata a message gets when the caller passes none. */
  const DefaultMetadata: Option<map<string, Value>> := Some(map[])

  /** One entry of the formatted conversation: the role name and the content. */
  datatype ChatEntry = ChatEntry(role: string, content: string)

  /** `[{"role": m.role, "content": m.content} for m in messages]`. */
  function FormatAll(ms: seq<Message>): (es: seq<ChatEntry>)
    ensures |es| == |ms|
    ensures forall i :: 0 <= i < |ms| ==> ParseRole(es[i].role) == Success(ms[i].role) && es[i].content == ms[i].content
  {
    seq(|ms|, i requires 0 <= i < |ms| => ChatEntry(RoleName(ms[i].role), ms[i].content))
  }

  /** Appending a message appends exactly its entry to the formatted conversation. */
  lemma FormatAllAppend(ms: seq<Message>, m: Message)
    ensures FormatAll(ms + [m]) == FormatAll(ms) + [ChatEntry(RoleName(m.role), m.content)]
  {
    var lhs, rhs := FormatAll(ms + [m]), FormatAll(ms) + [ChatEntry(RoleName(m.role), m.content)];
    forall i | 0 <= i < |lhs| ensures lhs[i] == rhs[i] {
      if i < |ms| {
        assert (ms + [m])[i] == ms[i];
      }
    }
  }

  class MessageThread {
    var messages: seq<Message>

    constructor ()
      ensures messages == []
    {
      messages := [];
    }

    /**
     * Builds a message from `role`, `content` and `metadata` and appends it. A role outside the
     * four names is refused before anything is appended.
     */
    method AddMessage(role: string, content: string, metadata: Option<map<string, Value>> := DefaultMetadata)
      returns (r: Result<Message, ValidationError>)
      modifies this
      ensures r.Success? <==> role in ValidRoles
      ensures r.Success? ==> RoleName(r.value.role) == role && r.value.content == content && r.value.metadata == metadata
      ensures r.Success? ==> messages == old(messages) + [r.value]
      ensures r.Failure? ==> r.error == InvalidRole(role) && messages == old(messages)
    {
      match ParseRole(role)
      case Failure(e) =>
        r := Failure(e);
      case Success(rl) =>
        var m := Message(rl, content, metadata);
        messages := messages + [m];
        r := Success(m);
    }

    /** The conversation as role/content pairs, one per message, in order. */
    function GetFormattedMessages(): (es: seq<ChatEntry>)
      reads this
      ensures |es| == |messages|
      ensures forall i :: 0 <= i < |messages| ==>
                ParseRole(es[i].role) == Success(messages[i].role) && es[i].content == messages[i].content
    {
      FormatAll(messages)
    }
  }
}
