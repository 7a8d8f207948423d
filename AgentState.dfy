/**
 * The state shared by the nodes of an agent graph: the message thread, the current and next
 * node names, the latest output of each node (one entry per node name) and an append-only
 * error log.
 */
module AgentState {
  import opened Wrappers
  import opened Values
  import Message

  /** What one node produced; `status` is "completed" unless the node says otherwise. */
  datatype NodeOutput = NodeOutput(nodeName: string, output: Value, status: string, error: Option<string>)

  /** One entry of the error log (its timestamp is not modelled). */
  datatype ErrorRecord = ErrorRecord(node: string, message: string, details: map<string, Value>)

  /** The dictionary `to_dict` produces. */
  datatype StateDict = StateDict(
    messages: seq<Message.Message>,
    currentNode: Option<string>,
    nextNode: Option<string>,
    nodeOutputs: map<string, NodeOutput>,
    errors: seq<ErrorRecord>)

  /**
   * Recording one output: the entry under its node name is created or replaced,
   * every other node's entry stays as it was.
   */
  function Record(outputs: map<string, NodeOutput>, o: NodeOutput): (r: map<string, NodeOutput>)
    ensures r.Keys == outputs.Keys + {o.nodeName}
    ensures r[o.nodeName] == o
    ensures forall k :: k in outputs && k != o.nodeName ==> r[k] == outputs[k]
  {
    outputs[o.nodeName := o]
  }

  /** Recording a run of outputs one after the other. */
  function RecordAll(outputs: map<string, NodeOutput>, os: seq<NodeOutput>): map<string, NodeOutput>
    decreases |os|
  {
    if os == [] then outputs else RecordAll(Record(outputs, os[0]), os[1..])
  }

  /** After a run of recordings the keys are the old ones plus every recorded node name. */
  lemma {:induction false} RecordAllKeys(outputs: map<string, NodeOutput>, os: seq<NodeOutput>)
    ensures RecordAll(outputs, os).Keys == outputs.Keys + set i | 0 <= i < |os| :: os[i].nodeName
    decreases |os|
  {
    if os != [] {
      RecordAllKeys(Record(outputs, os[0]), os[1..]);
      var tail := set i | 0 <= i < |os[1..]| :: os[1..][i].nodeName;
      var all := set i | 0 <= i < |os| :: os[i].nodeName;
      assert all == {os[0].nodeName} + tail by {
        forall x | x in all ensures x in {os[0].nodeName} + tail {
          var i :| 0 <= i < |os| && os[i].nodeName == x;
          if i > 0 {
            assert os[1..][i - 1].nodeName == x;
          }
        }
        forall x | x in tail ensures x in all {
          var i :| 0 <= i < |os[1..]| && os[1..][i].nodeName == x;
          assert os[i + 1].nodeName == x;
        }
      }
    }
  }

  /** A node that is not recorded again keeps its entry. */
  lemma {:induction false} RecordAllUntouched(outputs: map<string, NodeOutput>, os: seq<NodeOutput>, name: string)
    requires name in outputs
    requires forall j :: 0 <= j < |os| ==> os[j].nodeName != name
    ensures name in RecordAll(outputs, os) && RecordAll(outputs, os)[name] == outputs[name]
    decreases |os|
  {
    if os != [] {
      RecordAllUntouched(Record(outputs, os[0]), os[1..], name);
    }
  }

  /** The last output recorded under a node name is the one the state keeps. */
  lemma {:induction false} RecordAllLastWins(outputs: map<string, NodeOutput>, os: seq<NodeOutput>, k: nat)
    requires k < |os|
    requires forall j :: k < j < |os| ==> os[j].nodeName != os[k].nodeName
    ensures os[k].nodeName in RecordAll(outputs, os)
    ensures RecordAll(outputs, os)[os[k].nodeName] == os[k]
    decreases |os|
  {
    if k == 0 {
      RecordAllUntouched(Record(outputs, os[0]), os[1..], os[0].nodeName);
    } else {
      RecordAllLastWins(Record(outputs, os[0]), os[1..], k - 1);
    }
  }

  class AgentState {
    const thread: Message.MessageThread
    var currentNode: Option<string>
    var nextNode: Option<string>
    var nodeOutputs: map<string, NodeOutput>
    var errors: seq<ErrorRecord>

    constructor ()
      ensures fresh(thread) && thread.messages == []
      ensures currentNode == None && nextNode == None
      ensures nodeOutputs == map[] && errors == []
    {
      thread := new Message.MessageThread();
      currentNode := None;
      nextNode := None;
      nodeOutputs := map[];
      errors := [];
    }

    method AddNodeOutput(nodeName: string, output: Value, status: string := "completed", error: Option<string> := None)
      modifies this
      ensures nodeOutputs == Record(old(nodeOutputs), NodeOutput(nodeName, output, status, error))
      ensures errors == old(errors) && currentNode == old(currentNode) && nextNode == old(nextNode)
    {
      nodeOutputs := nodeOutputs[nodeName := NodeOutput(nodeName, output, status, error)];
    }

    /** Appends to the error log; absent (or empty) details are recorded as an empty map. */
    method AddError(nodeName: string, errorMessage: string, details: Option<map<string, Value>> := None)
      modifies this
      ensures errors == old(errors) + [ErrorRecord(nodeName, errorMessage, if details.Some? then details.value else map[])]
      ensures nodeOutputs == old(nodeOutputs) && currentNode == old(currentNode) && nextNode == old(nextNode)
    {
      var d := if details.Some? then details.value else map[];
      errors := errors + [ErrorRecord(nodeName, errorMessage, d)];
    }

    /** The node that was next becomes the current one. */
    method SetNextNode(nodeName: string)
      modifies this
      ensures currentNode == old(nextNode) && nextNode == Some(nodeName)
      ensures nodeOutputs == old(nodeOutputs) && errors == old(errors)
    {
      currentNode := nextNode;
      nextNode := Some(nodeName);
    }

    /** The state as a dictionary: every message in thread order and every node's output under its name. */
    function ToDict(): (d: StateDict)
      reads this, thread
      ensures |d.messages| == |thread.messages|
      ensures forall i :: 0 <= i < |d.messages| ==> d.messages[i] == thread.messages[i]
      ensures d.nodeOutputs.Keys == nodeOutputs.Keys
      ensures forall k :: k in d.nodeOutputs ==> d.nodeOutputs[k] == nodeOutputs[k]
      ensures d.currentNode == currentNode && d.nextNode == nextNode && d.errors == errors
    {
      StateDict(thread.messages, currentNode, nextNode, nodeOutputs, errors)
    }
  }
}
