/** The JSON-like values that the source stores under `Any` (node outputs, error details, tool calls). */
module Values {

  datatype Value =
    | Null
    | Str(s: string)
    | List(items: seq<Value>)
    | Dict(entries: map<string, Value>)

  /** A list of strings as a value, as `add_node_output(name, [..strings..])` stores it. */
  function StrList(items: seq<string>): (v: Value)
    ensures v.List? && |v.items| == |items|
    ensures forall i :: 0 <= i < |items| ==> v.items[i] == Str(items[i])
  {
    List(seq(|items|, i requires 0 <= i < |items| => Str(items[i])))
  }
}
