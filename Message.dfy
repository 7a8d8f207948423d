/**
 * Messages and message threads of the agent package: a message carries one of five roles,
 * a thread is an ordered log that only grows (or is cleared), and the formatter mirrors it
 * one entry per message for a completion request.
 */
module Message {
  import opened Wrappers
  import opened Values

  datatype Role = User | Assistant | System | Tool | Function

  function RoleName(r: Role): string {
    match r
    case User => "user"
    case Assistant => "assistant"
    case System => "system"
    case Tool => "tool"
    case Function => "function"
  }

  /** The role names a message may carry. */
  const ValidRoles: seq<string> := ["user", "assistant", "system", "tool", "function"]

  /** pydantic's refusal of a field value, naming what was given. */
  datatype ValidationError = InvalidRole(given: string)

  /** The check on the `role` field: a name outside `ValidRoles` is refused. */
  function ParseRole(name: string): (r: Result<Role, ValidationError>)
    ensures r.Success? <==> name in ValidRoles
    ensures r.Success? ==> RoleName(r.value) == name
    ensures r.Failure? ==> r.error == InvalidRole(name)
  {
    if name == "user" then Success(User)
    else if name == "assistant" then Success(Assistant)
    else if name == "system" then Success(System)
    else if name == "tool" then Success(Tool)
    else if name == "function" then Success(Function)
    else Failure(InvalidRole(name))
  }

  datatype Message = Message(
    role: Role,
    content: string,
    name: Option<string>,
    toolCalls: Option<seq<Value>>,
    toolCallId: Option<string>)

  /** Building a message from a role name: valid exactly for the five role names, and then it keeps the fields given. */
  function NewMessage(role: string, content: string, name: Option<string>, toolCalls: Option<seq<Value>>,
                      toolCallId: Option<string>): (r: Result<Message, ValidationError>)
    ensures r.Success? <==> role in ValidRoles
    ensures r.Success? ==> RoleName(r.value.role) == role && r.value.content == content
                           && r.value.name == name && r.value.toolCalls == toolCalls && r.value.toolCallId == toolCallId
    ensures r.Failure? ==> r.error == InvalidRole(role)
  {
    match ParseRole(role)
    case Success(rl) => Success(Message(rl, content, name, toolCalls, toolCallId))
    case Failure(e) => Failure(e)
  }

  /** Python truthiness of an optional string: present and not empty. */
  predicate IsSet(o: Option<string>) {
    o.Some? && o.value != []
  }

  /** One formatted entry; an optional key is present exactly when it is `Some`. */
  datatype Formatted = Formatted(
    role: string,
    content: string,
    name: Option<string>,
    toolCallId: Option<string>,
    toolCalls: Option<seq<Value>>)

  /**
   * The entry for one message: role and content always, and `name`, `tool_call_id` and
   * `tool_calls` only when the message's field is truthy. The role reads back as the message's role.
   */
  function Format(m: Message): (f: Formatted)
    ensures ParseRole(f.role) == Success(m.role) && f.content == m.content
    ensures f.name.Some? <==> IsSet(m.name)
    ensures f.toolCallId.Some? <==> IsSet(m.toolCallId)
    ensures f.toolCalls.Some? <==> (m.toolCalls.Some? && m.toolCalls.value != [])
    ensures f.name.Some? ==> f.name == m.name
    ensures f.toolCallId.Some? ==> f.toolCallId == m.toolCallId
    ensures f.toolCalls.Some? ==> f.toolCalls == m.toolCalls
  {
    Formatted(
      RoleName(m.role),
      m.content,
      if IsSet(m.name) then m.name else None,
      if IsSet(m.toolCallId) then m.toolCallId else None,
      if m.toolCalls.Some? && m.toolCalls.value != [] then m.toolCalls else None)
  }

  /**
   * The content of the last user message (`[m for m in messages if m.role == "user"][-1]`),
   * or None when the thread holds no user message.
   */
  function LastUserContent(ms: seq<Message>): (r: Option<string>)
    ensures r.None? <==> forall i :: 0 <= i < |ms| ==> ms[i].role != User
    ensures r.Some? ==> exists i :: 0 <= i < |ms| && ms[i].role == User && ms[i].content == r.value
                                     && forall j :: i < j < |ms| ==> ms[j].role != User
  {
    if ms == [] then None
    else if ms[|ms| - 1].role == User then Some(ms[|ms| - 1].content)
    else
      var r := LastUserContent(ms[..|ms| - 1]);
      assert forall i :: 0 <= i < |ms| - 1 ==> ms[..|ms| - 1][i] == ms[i];
      r
  }

  /** A thread of messages; the list is updated in place. */
  class MessageThread {
    var messages: seq<Message>

    constructor ()
      ensures messages == []
    {
      messages := [];
    }

    method AddUserMessage(content: string) returns (m: Message)
      modifies this
      ensures m == Message(User, content, None, None, None)
      ensures messages == old(messages) + [m]
    {
      m := Message(User, content, None, None, None);
      messages := messages + [m];
    }

    method AddAssistantMessage(content: string) returns (m: Message)
      modifies this
      ensures m == Message(Assistant, content, None, None, None)
      ensures messages == old(messages) + [m]
    {
      m := Message(Assistant, content, None, None, None);
      messages := messages + [m];
    }

    method AddSystemMessage(content: string) returns (m: Message)
      modifies this
      ensures m == Message(System, content, None, None, None)
      ensures messages == old(messages) + [m]
    {
      m := Message(System, content, None, None, None);
      messages := messages + [m];
    }

    method AddToolMessage(content: string, name: string, toolCallId: string) returns (m: Message)
      modifies this
      ensures m == Message(Tool, content, Some(name), None, Some(toolCallId))
      ensures messages == old(messages) + [m]
    {
      m := Message(Tool, content, Some(name), None, Some(toolCallId));
      messages := messages + [m];
    }

    /** One entry per message, in thread order. */
    method GetFormattedMessages() returns (formatted: seq<Formatted>)
      ensures |formatted| == |messages|
      ensures forall i :: 0 <= i < |messages| ==> formatted[i] == Format(messages[i])
    {
      formatted := [];
      var i := 0;
      while i < |messages|
        invariant 0 <= i <= |messages|
        invariant |formatted| == i
        invariant forall j :: 0 <= j < i ==> formatted[j] == Format(messages[j])
      {
        formatted := formatted + [Format(messages[i])];
        i := i + 1;
      }
    }

    method Clear()
      modifies this
      ensures messages == []
    {
      messages := [];
    }
  }
}
