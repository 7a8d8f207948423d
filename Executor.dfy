/**
 * The executor agent. A request is broken into tasks, one per non-blank line of the planner's
 * reply; the tasks are run one at a time in order (reading a file, writing a file, or a
 * general task answered by the completion service); the completed tasks are then listed in a
 * report. The completion service's replies are parameters of the node methods.
 */
module Executor {
  import opened Wrappers
  import opened Values
  import opened Text
  import Message
  import AgentState
  import FileOperations

  datatype Status = Pending | Completed

  /** A task's result: none yet, a text, or a file tool's output record (`ToolOutput(result=...)`). */
  datatype TaskResult = NoResult | Plain(text: string) | ToolOutput(result: string)

  datatype Task = Task(description: string, kind: string, status: Status, result: TaskResult)

  /** A result as the node output dictionary holds it. */
  function ResultValue(r: TaskResult): Value {
    match r
    case NoResult => Null
    case Plain(s) => Str(s)
    case ToolOutput(s) => Dict(map["result" := Str(s), "error" := Null, "metadata" := Dict(map[])])
  }

  /** The tasks added for a list of descriptions: each pending, of kind "general", without result. */
  function PendingTasks(descriptions: seq<string>): (ts: seq<Task>)
    ensures |ts| == |descriptions|
    ensures forall i :: 0 <= i < |ts| ==> ts[i] == Task(descriptions[i], "general", Pending, NoResult)
  {
    seq(|descriptions|, i requires 0 <= i < |descriptions| => Task(descriptions[i], "general", Pending, NoResult))
  }

  class ExecutorState {
    const agent: AgentState.AgentState
    var tasks: seq<Task>
    var currentTaskIndex: nat
    var completedTasks: seq<Task>

    /**
     * The queue discipline: the tasks before the index are completed and are exactly the
     * completed list, in order; the tasks from the index on are pending.
     */
    ghost predicate Valid()
      reads this
    {
      && currentTaskIndex <= |tasks|
      && completedTasks == tasks[..currentTaskIndex]
      && (forall i :: 0 <= i < |tasks| ==> (tasks[i].status == Completed <==> i < currentTaskIndex))
    }

    constructor ()
      ensures Valid()
      ensures fresh(agent) && fresh(agent.thread) && agent.thread.messages == []
      ensures tasks == [] && currentTaskIndex == 0 && completedTasks == []
      ensures agent.nodeOutputs == map[] && agent.errors == [] && agent.currentNode == None && agent.nextNode == None
    {
      agent := new AgentState.AgentState();
      tasks := [];
      currentTaskIndex := 0;
      completedTasks := [];
    }

    method AddTask(description: string, kind: string := "general")
      modifies this
      ensures tasks == old(tasks) + [Task(description, kind, Pending, NoResult)]
      ensures currentTaskIndex == old(currentTaskIndex) && completedTasks == old(completedTasks)
      ensures old(Valid()) ==> Valid()
    {
      tasks := tasks + [Task(description, kind, Pending, NoResult)];
    }

    /** Completes the current task with `result` and moves on; with no current task nothing changes. */
    method MarkCurrentTaskComplete(result: TaskResult)
      modifies this
      ensures old(currentTaskIndex) < |old(tasks)| ==>
                var done := old(tasks)[old(currentTaskIndex)].(status := Completed, result := result);
                && tasks == old(tasks)[old(currentTaskIndex) := done]
                && completedTasks == old(completedTasks) + [done]
                && currentTaskIndex == old(currentTaskIndex) + 1
      ensures old(currentTaskIndex) >= |old(tasks)| ==>
                tasks == old(tasks) && completedTasks == old(completedTasks) && currentTaskIndex == old(currentTaskIndex)
      ensures old(Valid()) ==> Valid()
    {
      if currentTaskIndex < |tasks| {
        var done := tasks[currentTaskIndex].(status := Completed, result := result);
        ghost var before := tasks;
        tasks := tasks[currentTaskIndex := done];
        completedTasks := completedTasks + [done];
        assert tasks[..currentTaskIndex + 1] == before[..currentTaskIndex] + [done];
        currentTaskIndex := currentTaskIndex + 1;
      }
    }

    /** The task at the index, which in a valid state is pending; None once the queue is exhausted. */
    function GetCurrentTask(): (t: Option<Task>)
      reads this
      ensures t.Some? <==> currentTaskIndex < |tasks|
      ensures t.Some? ==> t.value == tasks[currentTaskIndex]
      ensures Valid() && t.Some? ==> t.value.status == Pending
    {
      if currentTaskIndex < |tasks| then Some(tasks[currentTaskIndex]) else None
    }
  }

  datatype Step = ParseTasksStep | ExecuteTasksStep | FinalReportStep

  function StepName(s: Step): string {
    match s
    case ParseTasksStep => "parse_tasks"
    case ExecuteTasksStep => "execute_tasks"
    case FinalReportStep => "final_report"
  }

  /** The router: parse when there are no tasks, execute while one is pending, else report. */
  function DecideNextStep(s: ExecutorState): (step: Step)
    reads s
    ensures step == ParseTasksStep <==> s.tasks == []
    ensures step == ExecuteTasksStep <==> s.tasks != [] && s.GetCurrentTask().Some?
  {
    if s.tasks == [] then ParseTasksStep
    else if s.currentTaskIndex < |s.tasks| then ExecuteTasksStep
    else FinalReportStep
  }

  /** The report is reached only once every task is completed and listed as completed, in order. */
  lemma FinalReportOnlyWhenAllDone(s: ExecutorState)
    requires s.Valid() && DecideNextStep(s) == FinalReportStep
    ensures s.completedTasks == s.tasks && s.tasks != []
    ensures forall i :: 0 <= i < |s.tasks| ==> s.tasks[i].status == Completed
  {
    assert s.tasks[..|s.tasks|] == s.tasks;
  }

  /** Which handler a task description selects; "read" is checked before "write". */
  datatype Branch = ReadFile | WriteFile | General

  /** Whether a description, lower-cased, contains `word`. */
  predicate Mentions(description: string, word: string) {
    Contains(Lower(description), word)
  }

  /**
   * A description that mentions "file" goes to the read handler when it mentions "read", else
   * to the write handler when it mentions "write"; everything else is a general task.
   */
  function Classify(description: string): (b: Branch)
    ensures b == ReadFile <==> Mentions(description, "read") && Mentions(description, "file")
    ensures b == WriteFile <==> !Mentions(description, "read") && Mentions(description, "write") && Mentions(description, "file")
    ensures b == General <==> !Mentions(description, "file") || (!Mentions(description, "read") && !Mentions(description, "write"))
  {
    var d := Lower(description);
    if Contains(d, "read") && Contains(d, "file") then ReadFile
    else if Contains(d, "write") && Contains(d, "file") then WriteFile
    else General
  }

  lemma LowerIdempotent(s: string)
    ensures Lower(Lower(s)) == Lower(s)
  {
  }

  /** Classification ignores letter case. */
  lemma ClassifyIgnoresCase(description: string)
    ensures Classify(Lower(description)) == Classify(description)
  {
    LowerIdempotent(description);
  }

  const PathMarker := "FILE PATH:"
  const ContentMarker := "CONTENT:"
  const ParseFailure := "Failed to parse file path and content"

  datatype WriteRequest = WriteRequest(path: string, content: string)

  /**
   * The write handler's reading of a reply: cut at the first "CONTENT:"; the path is what
   * precedes it with every "FILE PATH:" removed, and both parts are stripped. A reply
   * without the marker cannot be parsed.
   */
  function ParseWriteReply(reply: string): (r: Option<WriteRequest>)
    ensures r.None? <==> !Contains(reply, ContentMarker)
    ensures r.Some? ==> IsStripped(r.value.path) && IsStripped(r.value.content)
  {
    match IndexOf(reply, ContentMarker)
    case None => None
    case Some(i) =>
      Some(WriteRequest(Strip(Replace(reply[..i], PathMarker, "")), Strip(reply[i + |ContentMarker|..])))
  }

  /** The reply the write prompt asks for. */
  function WriteReply(path: string, content: string): string {
    PathMarker + " " + path + "\n" + ContentMarker + "\n" + content
  }

  /** A window inside the middle part of `a + b + c` is a window of `b`. */
  lemma OccursInMiddle(a: string, b: string, c: string, pat: string, k: nat)
    requires |a| <= k && k + |pat| <= |a| + |b|
    ensures OccursAt(a + b + c, pat, k) == OccursAt(b, pat, k - |a|)
  {
    var s := a + b + c;
    assert s[k..k + |pat|] == b[k - |a|..k - |a| + |pat|];
  }

  lemma NotContainedNowhere(s: string, pat: string, k: nat)
    requires !Contains(s, pat)
    ensures !OccursAt(s, pat, k)
  {
  }

  /** In a reply of the requested form, the first "CONTENT:" is the marker line. */
  lemma WriteReplyMarker(path: string, content: string)
    requires !Contains(path, ContentMarker)
    ensures IndexOf(WriteReply(path, content), ContentMarker) == Some(|PathMarker| + 1 + |path| + 1)
  {
    var s := WriteReply(path, content);
    var pos := |PathMarker| + 1 + |path| + 1;
    WriteReplyShape(path, content);
    assert OccursAt(s, ContentMarker, pos);
    forall k: nat | k < pos ensures !OccursAt(s, ContentMarker, k) {
      NoMarkerBefore(path, content, k);
    }
    IndexOfFirst(s, ContentMarker, pos);
  }

  /** Where the pieces of a reply of the requested form sit. */
  lemma WriteReplyShape(path: string, content: string)
    ensures var s := WriteReply(path, content);
            var pos := |PathMarker| + 1 + |path| + 1;
            && s == (PathMarker + " ") + path + ("\n" + ContentMarker + "\n" + content)
            && |s| >= pos + |ContentMarker|
            && s[pos..pos + |ContentMarker|] == ContentMarker
            && s[4] == ' ' && s[10] == ' ' && s[pos - 1] == '\n'
  {
    var s := WriteReply(path, content);
    var pos := |PathMarker| + 1 + |path| + 1;
    assert s == (PathMarker + " ") + path + ("\n" + ContentMarker + "\n" + content);
    assert s[pos..pos + |ContentMarker|] == ContentMarker;
  }

  /** No "CONTENT:" starts before the marker line of a reply of the requested form. */
  lemma NoMarkerBefore(path: string, content: string, k: nat)
    requires !Contains(path, ContentMarker)
    requires k < |PathMarker| + 1 + |path| + 1
    ensures !OccursAt(WriteReply(path, content), ContentMarker, k)
  {
    var s := WriteReply(path, content);
    var pos := |PathMarker| + 1 + |path| + 1;
    var head := PathMarker + " ";
    WriteReplyShape(path, content);
    if k <= 10 {
      var j := if k <= 4 then 4 else 10;
      NoOccurrenceOver(s, ContentMarker, k, j);
    } else if k + |ContentMarker| <= |head| + |path| {
      OccursInMiddle(head, path, "\n" + ContentMarker + "\n" + content, ContentMarker, k);
      NotContainedNowhere(path, ContentMarker, k - |head|);
    } else {
      NoOccurrenceOver(s, ContentMarker, k, pos - 1);
    }
  }

  /** The path part of a reply of the requested form holds no "FILE PATH:" after its leading one. */
  lemma PathPartHasNoMarker(path: string)
    requires !Contains(path, PathMarker)
    ensures forall k: nat :: !OccursAt(" " + path + "\n", PathMarker, k)
  {
    var s := " " + path + "\n";
    forall k: nat ensures !OccursAt(s, PathMarker, k) {
      if k + |PathMarker| <= |s| {
        if k == 0 {
          assert s[k..k + |PathMarker|][0] == ' ';
        } else if k + |PathMarker| <= 1 + |path| {
          OccursInMiddle(" ", path, "\n", PathMarker, k);
          NotContainedNowhere(path, PathMarker, k - 1);
        } else {
          assert s[|s| - 1] == '\n';
          NoOccurrenceOver(s, PathMarker, k, |s| - 1);
        }
      }
    }
  }

  /** The part of a reply of the requested form before its "CONTENT:" is, with "FILE PATH:" removed, the padded path. */
  lemma WriteReplyPathPart(path: string, content: string)
    requires !Contains(path, PathMarker)
    ensures var pos := |PathMarker| + 1 + |path| + 1;
            Replace(WriteReply(path, content)[..pos], PathMarker, "") == " " + path + "\n"
  {
    var s := WriteReply(path, content);
    var pos := |PathMarker| + 1 + |path| + 1;
    assert s[..pos] == PathMarker + (" " + path + "\n");
    PathPartHasNoMarker(path);
    ReplaceAbsent(" " + path + "\n", PathMarker, "");
    assert (PathMarker + (" " + path + "\n"))[..|PathMarker|] == PathMarker;
    assert (PathMarker + (" " + path + "\n"))[|PathMarker|..] == " " + path + "\n";
  }

  /**
   * A reply written in the requested form is parsed back into the path and content it was
   * made of, provided both are stripped and the path holds neither marker.
   */
  lemma ParseWriteReplyRoundTrip(path: string, content: string)
    requires IsStripped(path) && IsStripped(content)
    requires !Contains(path, ContentMarker) && !Contains(path, PathMarker)
    ensures ParseWriteReply(WriteReply(path, content)) == Some(WriteRequest(path, content))
  {
    var s := WriteReply(path, content);
    var pos := |PathMarker| + 1 + |path| + 1;
    WriteReplyMarker(path, content);
    WriteReplyPathPart(path, content);
    assert s[pos + |ContentMarker|..] == "\n" + content;
    StripPadded(" ", path, "\n");
    assert "\n" + content == "\n" + content + "";
    StripPadded("\n", content, "");
  }

  /** What running one task gives: its result and the files afterwards. */
  function Execute(files: map<string, string>, description: string, reply: string): (TaskResult, map<string, string>)
  {
    match Classify(description)
    case ReadFile => (ToolOutput(FileOperations.Read(files, Strip(reply), 0, None)), files)
    case WriteFile =>
      (match ParseWriteReply(reply)
       case None => (Plain(ParseFailure), files)
       case Some(w) =>
         var o := FileOperations.WriteOutcome(files, w.path, w.content, false);
         (ToolOutput(o.0), o.1))
    case General => (Plain(reply), files)
  }

  /** A write task whose reply has no "CONTENT:" fails to parse and leaves the files alone. */
  lemma WriteWithoutMarkerFails(files: map<string, string>, description: string, reply: string)
    requires Classify(description) == WriteFile && !Contains(reply, ContentMarker)
    ensures Execute(files, description, reply) == (Plain(ParseFailure), files)
  {
  }

  /** A read task naming a file that does not exist reports it, and leaves the files alone. */
  lemma ReadMissingFile(files: map<string, string>, description: string, reply: string)
    requires Classify(description) == ReadFile && Strip(reply) !in files
    ensures Execute(files, description, reply) == (ToolOutput(FileOperations.NotFound(Strip(reply))), files)
  {
  }

  /** A write task answered in the requested form writes the content to the path. */
  lemma WriteTaskWrites(files: map<string, string>, writeTask: string, path: string, content: string)
    requires Classify(writeTask) == WriteFile
    requires IsStripped(path) && path != [] && !Contains(path, ContentMarker) && !Contains(path, PathMarker)
    requires IsStripped(content)
    ensures Execute(files, writeTask, WriteReply(path, content))
            == (ToolOutput(FileOperations.WriteMessage(path)), FileOperations.Written(files, path, content, false))
  {
    ParseWriteReplyRoundTrip(path, content);
  }

  /** A read task answered with a stripped path reads the whole of that file. */
  lemma ReadTaskReads(files: map<string, string>, readTask: string, path: string)
    requires Classify(readTask) == ReadFile && IsStripped(path)
    ensures Execute(files, readTask, path) == (ToolOutput(FileOperations.Read(files, path, 0, None)), files)
  {
    assert path == [] + path + [];
    StripPadded([], path, []);
  }

  /**
   * A write task answered in the requested form, followed by a read task answered with the same
   * path, reads back the content written.
   */
  lemma WriteTaskThenReadTask(files: map<string, string>, writeTask: string, readTask: string, path: string, content: string)
    requires Classify(writeTask) == WriteFile && Classify(readTask) == ReadFile
    requires IsStripped(path) && path != [] && !Contains(path, ContentMarker) && !Contains(path, PathMarker)
    requires IsStripped(content) && content != [] && '\r' !in content
    ensures var written := Execute(files, writeTask, WriteReply(path, content));
            written.0 == ToolOutput(FileOperations.WriteMessage(path))
            && Execute(written.1, readTask, path) == (ToolOutput(content), written.1)
  {
    WriteTaskWrites(files, writeTask, path, content);
    var files1 := FileOperations.Written(files, path, content, false);
    ReadTaskReads(files1, readTask, path);
    FileOperations.ReadAfterWrite(files, path, content);
  }

  /** The result as the report prints it; a tool output record is printed by `renderToolOutput`. */
  function RenderResult(r: TaskResult, renderToolOutput: string -> string): string {
    match r
    case NoResult => "None"
    case Plain(s) => s
    case ToolOutput(s) => renderToolOutput(s)
  }

  /** The report's section for the task at position `i` (numbered from 1). */
  function TaskEntry(i: nat, t: Task, renderToolOutput: string -> string): string {
    "## Task " + NatToString(i + 1) + ": " + t.description + "\n\n"
    + "**Result:** " + RenderResult(t.result, renderToolOutput) + "\n\n"
  }

  function TaskEntries(ts: seq<Task>, renderToolOutput: string -> string): (es: seq<string>)
    ensures |es| == |ts|
    ensures forall i :: 0 <= i < |ts| ==> es[i] == TaskEntry(i, ts[i], renderToolOutput)
  {
    seq(|ts|, i requires 0 <= i < |ts| => TaskEntry(i, ts[i], renderToolOutput))
  }

  /** The listing of completed tasks the report is written from. */
  function TasksText(ts: seq<Task>, renderToolOutput: string -> string): string {
    Concat(TaskEntries(ts, renderToolOutput))
  }

  /** Completing one more task adds its section, numbered next, to the end of the listing. */
  lemma TasksTextAppend(ts: seq<Task>, t: Task, renderToolOutput: string -> string)
    ensures TasksText(ts + [t], renderToolOutput) == TasksText(ts, renderToolOutput) + TaskEntry(|ts|, t, renderToolOutput)
  {
    var es := TaskEntries(ts + [t], renderToolOutput);
    assert es[..|es| - 1] == TaskEntries(ts, renderToolOutput);
  }

  /** Every completed task's section, with its number, appears in the listing. */
  lemma TasksTextShowsEveryTask(ts: seq<Task>, renderToolOutput: string -> string, i: nat)
    requires i < |ts|
    ensures Contains(TasksText(ts, renderToolOutput), TaskEntry(i, ts[i], renderToolOutput))
  {
    var es := TaskEntries(ts, renderToolOutput);
    ConcatAt(es, i);
    ContainsInfix(Concat(es[..i]), es[i], Concat(es[i + 1..]));
  }

  /** Builds the listing of completed tasks one section at a time. */
  method BuildTasksText(ts: seq<Task>, renderToolOutput: string -> string) returns (text: string)
    ensures text == TasksText(ts, renderToolOutput)
  {
    var es := TaskEntries(ts, renderToolOutput);
    text := "";
    var i := 0;
    while i < |ts|
      invariant 0 <= i <= |ts|
      invariant text == Concat(es[..i])
    {
      text := text + TaskEntry(i, ts[i], renderToolOutput);
      assert es[..i + 1][..i] == es[..i];
      i := i + 1;
    }
    assert es[..|ts|] == es;
  }

  /** Adds a pending general task for each description, in order. */
  method AddTasks(state: ExecutorState, descriptions: seq<string>)
    modifies state
    ensures state.tasks == old(state.tasks) + PendingTasks(descriptions)
    ensures state.currentTaskIndex == old(state.currentTaskIndex) && state.completedTasks == old(state.completedTasks)
    ensures old(state.Valid()) ==> state.Valid()
  {
    var i := 0;
    while i < |descriptions|
      invariant 0 <= i <= |descriptions|
      invariant state.tasks == old(state.tasks) + PendingTasks(descriptions[..i])
      invariant state.currentTaskIndex == old(state.currentTaskIndex) && state.completedTasks == old(state.completedTasks)
      invariant old(state.Valid()) ==> state.Valid()
    {
      state.AddTask(descriptions[i]);
      assert PendingTasks(descriptions[..i + 1]) == PendingTasks(descriptions[..i]) + [Task(descriptions[i], "general", Pending, NoResult)];
      i := i + 1;
    }
    assert descriptions[..|descriptions|] == descriptions;
  }

  /**
   * The planning node. With no user message in the thread it logs an error and changes nothing
   * else; otherwise each non-blank line of `reply` (the planner's answer about the last user
   * request), stripped, becomes a pending task, the list is recorded as this node's output and
   * "execute_tasks" is named next.
   */
  method ParseTasks(state: ExecutorState, reply: string)
    modifies state, state.agent
    ensures Message.LastUserContent(state.agent.thread.messages).None? ==>
              && state.agent.errors == old(state.agent.errors) + [AgentState.ErrorRecord("parse_tasks", "No user message found in state", map[])]
              && state.tasks == old(state.tasks)
              && state.agent.nodeOutputs == old(state.agent.nodeOutputs)
              && state.agent.currentNode == old(state.agent.currentNode)
              && state.agent.nextNode == old(state.agent.nextNode)
    ensures Message.LastUserContent(state.agent.thread.messages).Some? ==>
              && state.tasks == old(state.tasks) + PendingTasks(NonBlankLines(reply))
              && state.agent.nodeOutputs == AgentState.Record(old(state.agent.nodeOutputs),
                   AgentState.NodeOutput("parse_tasks", StrList(NonBlankLines(reply)), "completed", None))
              && state.agent.currentNode == old(state.agent.nextNode)
              && state.agent.nextNode == Some(StepName(ExecuteTasksStep))
              && state.agent.errors == old(state.agent.errors)
    ensures state.currentTaskIndex == old(state.currentTaskIndex) && state.completedTasks == old(state.completedTasks)
    ensures old(state.Valid()) ==> state.Valid()
  {
    if Message.LastUserContent(state.agent.thread.messages).None? {
      state.agent.AddError("parse_tasks", "No user message found in state");
      return;
    }
    var tasks := NonBlankLines(reply);
    AddTasks(state, tasks);
    state.agent.AddNodeOutput("parse_tasks", StrList(tasks));
    state.agent.SetNextNode(StepName(ExecuteTasksStep));
  }

  /**
   * The execution node: runs the current task with `reply` as the completion service's answer
   * about it (the file path for a read, the path and content for a write, the result for a
   * general task), completes it with the result and records task and result as this node's
   * output. With no task left it does nothing.
   */
  method ExecuteTasks(state: ExecutorState, store: FileOperations.FileStore, reply: string)
    modifies state, state.agent, store
    ensures old(state.GetCurrentTask()).None? ==>
              && state.tasks == old(state.tasks) && state.currentTaskIndex == old(state.currentTaskIndex)
              && state.completedTasks == old(state.completedTasks)
              && state.agent.nodeOutputs == old(state.agent.nodeOutputs) && store.files == old(store.files)
    ensures old(state.GetCurrentTask()).Some? ==>
              var task := old(state.tasks[state.currentTaskIndex]);
              var outcome := Execute(old(store.files), task.description, reply);
              var done := task.(status := Completed, result := outcome.0);
              && store.files == outcome.1
              && state.tasks == old(state.tasks)[old(state.currentTaskIndex) := done]
              && state.completedTasks == old(state.completedTasks) + [done]
              && state.currentTaskIndex == old(state.currentTaskIndex) + 1
              && state.agent.nodeOutputs == AgentState.Record(old(state.agent.nodeOutputs),
                   AgentState.NodeOutput("execute_tasks",
                     Dict(map["task" := Str(task.description), "result" := ResultValue(outcome.0)]), "completed", None))
    ensures state.agent.errors == old(state.agent.errors)
    ensures state.agent.currentNode == old(state.agent.currentNode) && state.agent.nextNode == old(state.agent.nextNode)
    ensures old(state.Valid()) ==> state.Valid()
  {
    var current := state.GetCurrentTask();
    if current.None? {
      return;
    }
    var task := current.value;
    var result: TaskResult;
    match Classify(task.description) {
      case ReadFile =>
        result := ToolOutput(FileOperations.Read(store.files, Strip(reply), 0, None));
      case WriteFile =>
        match ParseWriteReply(reply) {
          case None =>
            result := Plain(ParseFailure);
          case Some(w) =>
            var report := store.Write(w.path, w.content);
            result := ToolOutput(report);
        }
      case General =>
        result := Plain(reply);
    }
    state.MarkCurrentTaskComplete(result);
    state.agent.AddNodeOutput("execute_tasks", Dict(map["task" := Str(task.description), "result" := ResultValue(result)]));
  }

  /**
   * The report node: lists the completed tasks (returned, as the text the report prompt is
   * built from), adds `reply`, the completion service's report, to the thread as an assistant
   * message and records it as this node's output.
   */
  method FinalReport(state: ExecutorState, reply: string, renderToolOutput: string -> string) returns (tasksText: string)
    modifies state.agent, state.agent.thread
    ensures tasksText == TasksText(state.completedTasks, renderToolOutput)
    ensures state.agent.thread.messages == old(state.agent.thread.messages) + [Message.Message(Message.Assistant, reply, None, None, None)]
    ensures state.agent.nodeOutputs == AgentState.Record(old(state.agent.nodeOutputs),
              AgentState.NodeOutput("final_report", Str(reply), "completed", None))
    ensures state.agent.errors == old(state.agent.errors)
    ensures state.agent.currentNode == old(state.agent.currentNode) && state.agent.nextNode == old(state.agent.nextNode)
  {
    tasksText := BuildTasksText(state.completedTasks, renderToolOutput);
    var _ := state.agent.thread.AddAssistantMessage(reply);
    state.agent.AddNodeOutput("final_report", Str(reply));
  }
}
