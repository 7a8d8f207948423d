# Brain agents: a verified model of the deterministic core

Brain is a set of LLM agents built on LangGraph. Each agent is a small graph of nodes that
share a state object. This project models, in Dafny, the logic underneath the client calls:

- the shared workflow state: latest output per node, an error log, and the current/next node cursor;
- the two message-thread schemas and their formatters;
- the executor agent:
  - the task queue and its cursor;
  - task-line parsing;
  - the read/write/general classifier;
  - the parser for `FILE PATH:` / `CONTENT:` replies;
  - the report listing;
  - the router;
- the researcher agent:
  - the de-duplicated topic list;
  - findings as an insertion-ordered dictionary;
  - the research pass that skips topics already researched;
  - the findings listing;
  - the four-way router;
- the older dictionary-based researcher graph: its nodes, its router, its edge table and
  whole runs;
- the pure cores of the tools:
  - file reading (line selection and in-band error strings);
  - file writing (overwrite or append over a path → text map);
  - the simulated web search.

Every reply of the completion service is a parameter: a string, or a function from a topic or
step to a string. Objects whose fields the source updates in place are classes:
`AgentState.AgentState`, `Message.MessageThread`, `LegacyMessage.MessageThread`,
`Executor.ExecutorState`, `Researcher.ResearcherState`, `FileOperations.FileStore` and
`WebSearch.WebSearchTool`.

The project has these modules:

| module | file |
|---|---|
| `Wrappers` | Option and Result |
| `Values` | the JSON-like values stored under `Any` |
| `Text` | the Python `str` operations the agents use, on `seq<char>` |
| `Message` | `neural_agents/schemas/message.py` |
| `AgentState` | `neural_agents/schemas/agent_state.py` |
| `Executor` | `neural_agents/agents/executor.py` |
| `Researcher` | `neural_agents/agents/researcher.py` |
| `FileOperations` | `neural_agents/tools/file_operations.py` |
| `WebSearch` | `neural_agents/tools/web_search.py` |
| `LegacyMessage` | `schemas/message.py` |
| `LegacyResearcher` | `agents/researcher.py` |

## Model

| member | source | states |
|---|---|---|
| Text.Strip | neural_agents/agents/executor.py:89 | `str.strip()`: the result has no leading or trailing whitespace (Python's `isspace` set) and is empty exactly when the input is all whitespace |
| Text.StripPadded | neural_agents/agents/executor.py:145-147 | stripping whitespace padding off a stripped word gives the word back |
| Text.Split | neural_agents/agents/executor.py:89 | `split('\n')` yields at least one piece, and no piece contains the separator |
| Text.JoinSplit | neural_agents/agents/executor.py:89 | joining the pieces of a split with the separator rebuilds the string |
| Text.SplitJoin | agents/researcher.py:58 | splitting a join of separator-free pieces gives the pieces back |
| Text.NonBlankLines | neural_agents/agents/executor.py:89 | the comprehension `[l.strip() for l in s.split('\n') if l.strip()]`: every item is non-empty and stripped |
| Text.NonBlankLinesOfJoin | neural_agents/agents/researcher.py:80 | items written one per line are read back item for item (inverse of joining with "\n") |
| Text.IndexOf | neural_agents/agents/executor.py:142 | the first occurrence of a pattern: it occurs there, nowhere earlier, and None exactly when it occurs nowhere |
| Text.ReplaceAbsent | neural_agents/agents/executor.py:147 | `replace` of a pattern that does not occur leaves the string unchanged |
| Text.Lower | neural_agents/agents/executor.py:119 | `lower()` keeps the length and lowers each character on its own |
| Text.NatToStringRoundTrip | neural_agents/tools/web_search.py:41-42 | the decimal rendering used in titles and URLs reads back as the number |
| Text.NatToStringInjective | neural_agents/tools/web_search.py:42 | distinct numbers render as distinct decimal strings |
| Text.IntToString | neural_agents/tools/file_operations.py:33 | `f"{n}"` of an int: the decimal digits, with a leading "-" for a negative number |
| Text.ConcatAppend | neural_agents/tools/file_operations.py:40 | `''.join` of two lists in a row is the join of the first followed by the join of the second |
| Text.JoinContains | agents/researcher.py:91 | `sep.join(parts)` contains every part |
| Message.ParseRole | neural_agents/schemas/message.py:9-21 | a role is accepted exactly when it is one of user, assistant, system, tool, function; otherwise the error names the given role |
| Message.NewMessage | neural_agents/schemas/message.py:7-13 | building a message succeeds exactly for the five role names and keeps every given field |
| Message.Format | neural_agents/schemas/message.py:64-73 | one entry: role (reading back as the message's role) and content always; name, tool_call_id and tool_calls exactly when the field is truthy, and then equal to it |
| Message.LastUserContent | neural_agents/agents/executor.py:73-78 | the content of the last user message; None exactly when no message has the user role |
| Message.MessageThread.AddUserMessage | neural_agents/schemas/message.py:27-32 | appends exactly one user message with the content and returns it; earlier messages unchanged |
| Message.MessageThread.AddAssistantMessage | neural_agents/schemas/message.py:34-39 | appends exactly one assistant message with the content and returns it |
| Message.MessageThread.AddSystemMessage | neural_agents/schemas/message.py:41-46 | appends exactly one system message with the content and returns it |
| Message.MessageThread.AddToolMessage | neural_agents/schemas/message.py:48-58 | appends exactly one tool message carrying the given name and tool_call_id, and returns it |
| Message.MessageThread.GetFormattedMessages | neural_agents/schemas/message.py:60-77 | one formatted entry per message, same length, same order |
| Message.MessageThread.Clear | neural_agents/schemas/message.py:79-82 | the thread is empty afterwards |
| AgentState.Record | neural_agents/schemas/agent_state.py:25-34 | storing an output adds its node name to the keys, makes it that key's entry, and keeps every other entry |
| AgentState.RecordAllKeys | neural_agents/schemas/agent_state.py:25-34 | after several outputs, the keys are the old keys plus every recorded node name, one entry per name |
| AgentState.RecordAllUntouched | neural_agents/schemas/agent_state.py:33 | a node that is not recorded again keeps its entry |
| AgentState.RecordAllLastWins | neural_agents/schemas/agent_state.py:33 | the entry under a node name is the last output recorded under it |
| AgentState.AgentState.AddNodeOutput | neural_agents/schemas/agent_state.py:25-34 | stores `NodeOutput(name, output, status, error)` (status "completed" and error None by default) under the name; errors and cursor untouched |
| AgentState.AgentState.AddError | neural_agents/schemas/agent_state.py:36-45 | appends exactly one record (node, message, details or {}); earlier errors, outputs and cursor untouched |
| AgentState.AgentState.SetNextNode | neural_agents/schemas/agent_state.py:47-51 | the old next node becomes the current node and the given name the next; outputs and errors untouched |
| AgentState.AgentState.ToDict | neural_agents/schemas/agent_state.py:53-61 | the messages in thread order with the same length, the same node-output keys and entries, the same cursor and errors |
| Executor.PendingTasks | neural_agents/agents/executor.py:23-31 | one pending "general" task without result per description, in order |
| Executor.ExecutorState.AddTask | neural_agents/agents/executor.py:23-32 | appends exactly one pending task of the given type (default "general") without result; keeps the queue invariant |
| Executor.ExecutorState.MarkCurrentTaskComplete | neural_agents/agents/executor.py:34-41 | with a current task: completes it with the result, appends it to the completed list and advances the cursor; otherwise nothing changes; keeps the queue invariant (completed list = tasks before the cursor, and exactly those are completed) |
| Executor.ExecutorState.GetCurrentTask | neural_agents/agents/executor.py:43-47 | the task at the cursor exactly when the cursor is inside the list, and in a valid queue that task is pending |
| Executor.DecideNextStep | neural_agents/agents/executor.py:205-215 | "parse_tasks" exactly when there are no tasks; "execute_tasks" exactly when there are tasks and one is current; otherwise "final_report" |
| Executor.FinalReportOnlyWhenAllDone | neural_agents/agents/executor.py:205-215 | in a valid queue the router reaches the report only when every task is completed and the completed list is the whole task list |
| Executor.Classify | neural_agents/agents/executor.py:119-153 | read branch exactly when the lowered description mentions "read" and "file"; write branch exactly when it mentions "write" and "file" but not "read"; the general branch otherwise |
| Executor.ClassifyIgnoresCase | neural_agents/agents/executor.py:119-132 | classification gives the same branch for a description and its lower-cased form |
| Executor.ParseWriteReply | neural_agents/agents/executor.py:142-147 | no result exactly when the reply lacks "CONTENT:"; otherwise the path and content are stripped |
| Executor.ParseWriteReplyRoundTrip | neural_agents/agents/executor.py:136-147 | a reply in the requested `FILE PATH: p\nCONTENT:\nc` form is parsed back into exactly `p` and `c` |
| Executor.WriteReplyMarker | neural_agents/agents/executor.py:142 | in a reply of the requested form, the first "CONTENT:" is the marker line |
| Executor.WriteWithoutMarkerFails | neural_agents/agents/executor.py:151-152 | a write task whose reply has no "CONTENT:" yields "Failed to parse file path and content" and changes no file |
| Executor.ReadMissingFile | neural_agents/agents/executor.py:127-130 | a read task naming a missing file yields the not-found message and changes no file |
| Executor.WriteTaskWrites | neural_agents/agents/executor.py:132-150 | a write task answered in the requested form overwrites that path with that content and reports success |
| Executor.ReadTaskReads | neural_agents/agents/executor.py:119-130 | a read task answered with a path reads the whole of that file |
| Executor.WriteTaskThenReadTask | neural_agents/agents/executor.py:119-150 | a write task followed by a read task of the same path reads back the content written |
| Executor.TaskEntries | neural_agents/agents/executor.py:186-188 | one report section per completed task, numbered from 1, in order |
| Executor.TasksTextAppend | neural_agents/agents/executor.py:186-188 | completing one more task adds its section, numbered next, at the end of the listing |
| Executor.TasksTextShowsEveryTask | neural_agents/agents/executor.py:186-188 | every completed task's numbered section appears in the listing |
| Executor.BuildTasksText | neural_agents/agents/executor.py:185-188 | the accumulating loop produces exactly the listing of the completed tasks |
| Executor.AddTasks | neural_agents/agents/executor.py:92-93 | appends one pending task per description, in order, duplicates kept; keeps the queue invariant |
| Executor.ParseTasks | neural_agents/agents/executor.py:61-98 | no user message: exactly one error appended and no task added; otherwise the stripped non-blank reply lines become pending tasks, are recorded as the node output and "execute_tasks" is named next |
| Executor.ExecuteTasks | neural_agents/agents/executor.py:100-171 | no current task: nothing changes; otherwise the current task completes with the result of its branch, the files change only by that branch's write, and task and result are recorded as the node output |
| Executor.FinalReport | neural_agents/agents/executor.py:173-203 | returns the listing of the completed tasks, appends exactly one assistant message with the reply and records it as the node output |
| Researcher.Keys | neural_agents/agents/researcher.py:19 | the keys of the findings dictionary in insertion order |
| Researcher.Lookup | neural_agents/agents/researcher.py:104 | a finding is found exactly when its topic is a key, and it is the stored finding |
| Researcher.Put | neural_agents/agents/researcher.py:28-31 | storing a finding makes it the topic's finding and leaves every other topic's finding alone; a known topic keeps its place, a new one goes at the end |
| Researcher.PutKeys | neural_agents/agents/researcher.py:28-31 | storing a finding adds its topic to the keys and keeps the keys distinct |
| Researcher.AddTopicsSpec | neural_agents/agents/researcher.py:22-26 | adding topics keeps the old ones first and in place, lists each topic once, and ends with exactly the old and the added topics |
| Researcher.ResearchAllKeys | neural_agents/agents/researcher.py:103-121 | a pass queries exactly the topics without a finding, each once and in order, and appends them to the keys |
| Researcher.ResearchAllCovers | neural_agents/agents/researcher.py:103-121 | after a pass every topic has a finding |
| Researcher.ResearchAllFindings | neural_agents/agents/researcher.py:103-121 | a pass never changes an existing finding, and stores the synthesized answer for every topic it queries |
| Researcher.ResearchAllNoop | neural_agents/agents/researcher.py:104-105 | when every topic already has a finding, a pass queries nothing and changes nothing |
| Researcher.ResearchAllIdempotent | neural_agents/agents/researcher.py:103-121 | a second pass over the same topics does nothing |
| Researcher.FewerFindingsIffTopicPending | neural_agents/agents/researcher.py:168 | with distinct topics and distinct keys that are all topics, fewer findings than topics means exactly that some topic lacks a finding |
| Researcher.ResearchAllCompletes | neural_agents/agents/researcher.py:103-121 | from a valid state a pass leaves exactly one finding per topic |
| Researcher.FindingEntries | neural_agents/agents/researcher.py:141-142 | one `## topic\n\nfinding\n\n` section per finding, in insertion order |
| Researcher.FindingsTextShowsEveryFinding | neural_agents/agents/researcher.py:140-142 | every finding's section appears in the listing |
| Researcher.BuildFindingsText | neural_agents/agents/researcher.py:140-142 | the accumulating loop produces exactly the findings listing |
| Researcher.ResearcherState.AddResearchTopic | neural_agents/agents/researcher.py:22-26 | appends the topic only when it is not listed; keeps topics distinct |
| Researcher.ResearcherState.AddResearchFinding | neural_agents/agents/researcher.py:28-31 | sets or replaces the finding for that topic only; keeps the state valid when the topic is listed |
| Researcher.ResearcherState.SetSummary | neural_agents/agents/researcher.py:33-36 | replaces the summary; topics and findings unchanged |
| Researcher.DecideNextStep | neural_agents/agents/researcher.py:162-176 | the four rules in priority order: no topics → identify; fewer findings than topics → research; findings and no summary → summarize; otherwise end |
| Researcher.RoutesToResearchIffTopicPending | neural_agents/agents/researcher.py:162-169 | in a valid state with topics, the router chooses research exactly when some topic lacks a finding |
| Researcher.AddResearchTopics | neural_agents/agents/researcher.py:83-84 | adds each topic in order, skipping those already listed |
| Researcher.IdentifyResearchTopics | neural_agents/agents/researcher.py:52-89 | no user message: exactly one error appended and topics unchanged; otherwise the stripped non-blank reply lines are added as topics, recorded as the node output, and "research_topics" is named next |
| Researcher.ResearchTopic | neural_agents/agents/researcher.py:104-121 | one topic is searched and answered exactly when it has no finding yet; only then the findings change |
| Researcher.ResearchPass | neural_agents/agents/researcher.py:103-121 | the loop queries and stores exactly what one research pass over the topics does; topics and summary unchanged; keeps the state valid |
| Researcher.ResearchTopics | neural_agents/agents/researcher.py:91-126 | one research pass, then the keys of the findings recorded as the node output and "create_summary" named next |
| Researcher.CreateSummary | neural_agents/agents/researcher.py:128-160 | returns the findings listing, stores the reply as the summary, appends exactly one assistant message and records the node output |
| FileOperations.Translate | neural_agents/tools/file_operations.py:28-29 | text-mode reading leaves no carriage return and never lengthens the text |
| FileOperations.TranslatePlain | neural_agents/tools/file_operations.py:28-29 | text without a carriage return reads back unchanged |
| FileOperations.ReadLines | neural_agents/tools/file_operations.py:29 | `readlines()`: the lines put back together give the text; every line is non-empty, only its last character can be a newline, and every line but the last ends with one |
| FileOperations.ReadLinesEmpty | neural_agents/tools/file_operations.py:29 | an empty file has no lines |
| FileOperations.SliceBound | neural_agents/tools/file_operations.py:36-38 | Python's slice-bound normalisation: in range it is kept, a negative bound counts from the end |
| FileOperations.SelectionRun | neural_agents/tools/file_operations.py:35-38 | from an existing line the selection is the run of lines from it to `min(start + n, len)` (to the end with no count) |
| FileOperations.Read | neural_agents/tools/file_operations.py:25-42 | a missing file gives "Error: File not found: {path}"; a start at or past the line count gives the out-of-range message naming both numbers; from an existing line `s` the result is the concatenation of `lines[s:]`, or of `lines[s:min(s+n, len)]` when a count `n` is given |
| FileOperations.ReadFromLine | neural_agents/tools/file_operations.py:35-40 | a read from an existing line is a prefix of the file's text from the start of that line |
| FileOperations.ReadWhole | neural_agents/tools/file_operations.py:35-40 | reading a non-empty file from line 0 with no count gives back its whole text |
| FileOperations.ReadEmptyFile | neural_agents/tools/file_operations.py:32-33 | in an empty file every non-negative start line is out of range (0 lines) |
| FileOperations.SelectionsJoin | neural_agents/tools/file_operations.py:37-38 | two adjacent line selections put together give the selection spanning both |
| FileOperations.ReadRangesJoin | neural_agents/tools/file_operations.py:37-40 | two adjacent range reads put together give the read spanning both |
| FileOperations.ReadRangeIsPrefix | neural_agents/tools/file_operations.py:35-40 | a bounded read is a prefix of the unbounded read from the same line |
| FileOperations.ReadLastLines | neural_agents/tools/file_operations.py:36 | a negative start `-k` reads the last `k` lines |
| FileOperations.Written | neural_agents/tools/file_operations.py:59-61 | the path holds the content (overwrite), or its old text followed by the content (append to an existing file); no other file changes |
| FileOperations.WriteOutcome | neural_agents/tools/file_operations.py:52-65 | the empty path fails and changes nothing; any other path is written and reported as "Successfully wrote to {path}" |
| FileOperations.FileStore.Write | neural_agents/tools/file_operations.py:52-65 | the report and the new files are exactly the write outcome |
| FileOperations.ReadAfterWrite | neural_agents/tools/file_operations.py:52-61 | overwriting a file and reading it back gives the content written |
| FileOperations.ReadAfterAppend | neural_agents/tools/file_operations.py:58-61 | appending to a file and reading it back gives the old text followed by the new |
| WebSearch.ResultCount | neural_agents/tools/web_search.py:35-39 | `min(num_results, max_results)` results, none when that is not positive, and some when both are positive |
| WebSearch.Search | neural_agents/tools/web_search.py:38-46 | exactly that many results, the i-th being the simulated result number i+1 for the query and engine, in index order |
| WebSearch.WebSearchTool.constructor | neural_agents/tools/web_search.py:18-25 | each argument that is missing or falsy (empty, 0) is replaced by the setting |
| WebSearch.WebSearchTool.Run | neural_agents/tools/web_search.py:27-46 | the loop returns exactly the search results for the query with this tool's limit and engine |
| WebSearch.DefaultSearchYieldsThree | neural_agents/config/settings.py:28-30 | with the default count (3) and the default limit (5) a search yields three results |
| WebSearch.SearchUrlsDistinct | neural_agents/tools/web_search.py:39-42 | no two results of one search share a URL |
| WebSearch.SearchMentionsQueryAndEngine | neural_agents/tools/web_search.py:41-43 | every result names the query in its title and snippet, and the engine in its snippet |
| LegacyMessage.ParseRole | schemas/message.py:9 | a role is accepted exactly when it is user, assistant, system or tool ("function" is not); otherwise the error names it |
| LegacyMessage.FormatAll | schemas/message.py:26-28 | one `{role, content}` per message, same length and order, the role reading back as the message's role |
| LegacyMessage.FormatAllAppend | schemas/message.py:20-28 | adding a message adds exactly its entry to the end of the formatted list |
| LegacyMessage.MessageThread.AddMessage | schemas/message.py:20-24 | succeeds exactly for the four role names; then it appends exactly one message with that role, content and metadata (empty by default) and returns it; otherwise nothing is appended and the error names the role |
| LegacyMessage.MessageThread.GetFormattedMessages | schemas/message.py:26-28 | one role/content entry per message, same length and order; each entry's role reads back as the message's role and its content is the message's content |
| LegacyResearcher.Conversation | agents/researcher.py:47-52 | "user" becomes a human message, "assistant" an AI message and any other role a system message, keeping content and order |
| LegacyResearcher.ConversationOfThread | agents/researcher.py:47-52 | a formatted thread reaches the client with user turns human, assistant turns AI, and system and tool turns as system messages |
| LegacyResearcher.ResearchTask | agents/researcher.py:57-61 | messages unchanged, summary "", and the steps are the stripped non-blank lines of the plan |
| LegacyResearcher.PlanRoundTrip | agents/researcher.py:58-59 | a plan written one clean step per line is read back step for step |
| LegacyResearcher.Findings | agents/researcher.py:77-88 | one `# step\n\nreply` finding per step, in order |
| LegacyResearcher.ExecuteResult | agents/researcher.py:91-93 | messages and steps pass through; the summary is the findings joined by blank lines, and empty exactly when there are no steps |
| LegacyResearcher.ExecuteShowsEveryStep | agents/researcher.py:88-91 | every step's finding appears in the summary |
| LegacyResearcher.ExecuteResearch | agents/researcher.py:63-93 | the accumulating loop produces exactly the state `ExecuteResult` describes |
| LegacyResearcher.SummarizeResearch | agents/researcher.py:108-110 | appends exactly one assistant message, clears the steps, keeps the summary |
| LegacyResearcher.SummaryReadsAsAI | agents/researcher.py:108-110 | the appended answer reaches the client as one more AI message after the earlier conversation |
| LegacyResearcher.ShouldContinueResearch | agents/researcher.py:112-116 | "execute_research" exactly when the summary is empty, otherwise "summarize" |
| LegacyResearcher.Successor | agents/researcher.py:127-140 | research → execute_research; execute_research → itself exactly when the router says so, else summarize; summarize → end |
| LegacyResearcher.StuckWithoutSteps | agents/researcher.py:112-136 | with no steps and an empty summary the router as written returns the run to execute_research with the state unchanged, however long it runs |
| LegacyResearcher.UnplannedRunNeverEnds | agents/researcher.py:57-140 | as written, a plan without a non-blank line never lets a run reach the end |
| LegacyResearcher.EmptyPlanHasNoSteps | agents/researcher.py:58-59 | the empty plan is such a plan |
| LegacyResearcher.RunThroughOnce | agents/researcher.py:123-140 | when the router leaves execute_research after one visit, a run visits research, execute_research and summarize once each and ends in the final state |
| LegacyResearcher.PlannedRunEnds | agents/researcher.py:112-140 | as written, a plan with a step makes the run end after three nodes with the answer appended and the joined findings as the summary |
| LegacyResearcher.ShouldContinueResearchFixed | agents/researcher.py:112-116 | corrected router: research again exactly when the summary is empty and there are steps |
| LegacyResearcher.FixedRunAlwaysEnds | agents/researcher.py:112-140 | with the corrected router every run ends after three nodes, whatever the plan |
| LegacyResearcher.RunsAgreeWhenPlanned | agents/researcher.py:112-116 | when the plan has steps the corrected router changes nothing about a run |

## Left out

- The completion service (`ChatOpenAI`, `agent.invoke`) and the prompt texts. Each reply is a parameter of the node. In `Researcher` and `LegacyResearcher` it is a function of the topic (or step) and its search results.
- LangGraph: graph compilation, and the conditional-edge registrations on the node named "" in `create_executor_agent` and `create_researcher_agent`. Only the routers are modelled, as functions. The older graph's edge table is modelled with a fuel-bounded runner, `LegacyResearcher.Run`. The fuel only bounds the number of node executions.
- `update_timestamp`, `datetime.now()` in error records, and uuid ids. They are unobserved side effects. An error record has no timestamp field.
- Logging, visualisation, the HTTP façades, `agent_factory`, and environment loading of settings. The defaults of `neural_agents/config/settings.py:28-30` are the constant `WebSearch.DefaultToolConfig`.
- `neural_agents/tools/base.py`: pydantic validation of tool inputs and its catch-all handler are not part of this model. A file tool's result is a `ToolOutput(result=…)` record. The report renders it through a parameter, `renderToolOutput`.
- The real file system is a map from path to text. These are not modelled:
  - `os.makedirs`;
  - permissions;
  - errors other than a missing file for reading and the empty path for writing;
  - the exact exception text for other errors.
  Text-mode reading translates "\r\n" and "\r" to "\n", as Python's universal newlines do. Encodings are not modelled.
- Text.Lower: only ASCII letters are lowered. Python's `str.lower` also lowers other letters. This cannot change whether "read", "write" or "file" occur.
- The order of the `node_outputs` dictionary is not modelled (it is a map); nothing in the core iterates it in order. `research_findings` order is modelled, because `create_summary` iterates it.
- Message and NodeOutput validation errors are a datatype naming the offending value, not pydantic's error text.
- `tools/web_search.py` (the older mock search) is not part of this model. In `LegacyResearcher` its result is folded into the answer function, and that answer function is fixed for a run.
- Aliasing: `ResearcherState` and `ExecutorState` subclass `AgentState` in the source. Here they hold an `AgentState` object in a `const agent` field (composition). The older researcher's state is a value; its nodes return fresh dictionaries.
- `WebSearchTool._arun` (async wrapper around `_run`).
- Text.TrimLeft: its contract does not state that the result is a suffix of the input. That fact is the separate lemma `Text.TrimLeftIsSuffix`.

## Findings

| source | as written | input that shows it | evidently intended | confidence | as-written member | corrected member |
|---|---|---|---|---|---|---|
| agents/researcher.py:112-136 | `should_continue_research` sends the run back to `execute_research` whenever the summary is empty. `execute_research` leaves the summary empty when there are no steps, so the graph loops on `execute_research` with an unchanged state and never reaches `END`; under LangGraph's default recursion limit the call then fails with `GraphRecursionError` instead of returning a summary. | a plan reply without a single non-blank line, e.g. `""` (`LegacyResearcher.EmptyPlanHasNoSteps`) | go on to `summarize` when there is nothing to research | not executed | LegacyResearcher.UnplannedRunNeverEnds | LegacyResearcher.FixedRunAlwaysEnds |
