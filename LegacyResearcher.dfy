/**
 * The older, dictionary-based researcher graph. Its state holds the conversation, the research
 * steps and the research summary; each node returns a fresh state. "research" turns the
 * planner's reply into steps, "execute_research" writes one finding per step and joins them
 * into the summary, and a router sends the run back to "execute_research" while the summary
 * is empty, or on to "summarize", which appends the final answer and ends the run.
 * The completion service's replies are parameters.
 */
module LegacyResearcher {
  import opened Wrappers
  import opened Text
  import LegacyMessage

  /**
   * The state dictionary. A key the dictionary lacks reads as its default (no messages, no
   * steps, an empty summary), so a run started from the messages alone starts in `Initial`.
   */
  datatype State = State(messages: seq<LegacyMessage.ChatEntry>, nextSteps: seq<string>, researchSummary: string)

  function Initial(messages: seq<LegacyMessage.ChatEntry>): State {
    State(messages, [], "")
  }

  /** The chat message kinds of the completion client. */
  datatype ChatMessage = Human(content: string) | AI(content: string) | SystemMessage(content: string)

  /** The conversation as the completion client sees it: "user" is human, "assistant" is AI, any other role is system. */
  function Conversation(ms: seq<LegacyMessage.ChatEntry>): (cs: seq<ChatMessage>)
    ensures |cs| == |ms|
    ensures forall i :: 0 <= i < |ms| ==>
              && cs[i].content == ms[i].content
              && (cs[i].Human? <==> ms[i].role == "user")
              && (cs[i].AI? <==> ms[i].role == "assistant")
  {
    seq(|ms|, i requires 0 <= i < |ms| =>
      if ms[i].role == "user" then Human(ms[i].content)
      else if ms[i].role == "assistant" then AI(ms[i].content)
      else SystemMessage(ms[i].content))
  }

  /** A formatted thread reaches the client with user turns human, assistant turns AI, and system and tool turns as system messages. */
  lemma ConversationOfThread(ms: seq<LegacyMessage.Message>, i: nat)
    requires i < |ms|
    ensures var c := Conversation(LegacyMessage.FormatAll(ms))[i];
            && c.content == ms[i].content
            && (c.Human? <==> ms[i].role == LegacyMessage.User)
            && (c.AI? <==> ms[i].role == LegacyMessage.Assistant)
            && (c.SystemMessage? <==> ms[i].role == LegacyMessage.System || ms[i].role == LegacyMessage.Tool)
  {
    var e := LegacyMessage.FormatAll(ms)[i];
    assert LegacyMessage.RoleName(ms[i].role) == e.role;
  }

  /** The "research" node: the steps are the stripped, non-blank lines of the planner's reply; the summary is reset. */
  function ResearchTask(s: State, plan: string): (r: State)
    ensures r.messages == s.messages && r.researchSummary == ""
    ensures r.nextSteps == NonBlankLines(plan)
    ensures forall k :: 0 <= k < |r.nextSteps| ==> r.nextSteps[k] != [] && IsStripped(r.nextSteps[k])
  {
    State(s.messages, NonBlankLines(plan), "")
  }

  /** A plan written one clean step per line is read back step for step. */
  lemma PlanRoundTrip(s: State, steps: seq<string>)
    requires forall k :: 0 <= k < |steps| ==> steps[k] != [] && IsStripped(steps[k]) && '\n' !in steps[k]
    ensures ResearchTask(s, Join(steps, "\n")).nextSteps == steps
  {
    NonBlankLinesOfJoin(steps);
  }

  /** What the completion service writes about one step (from the step and its search results). */
  type Answerer = string -> string

  /** The finding for one step: a heading naming the step, then the reply. */
  function FindingText(step: string, reply: string): string {
    "# " + step + "\n\n" + reply
  }

  function Findings(steps: seq<string>, answer: Answerer): (fs: seq<string>)
    ensures |fs| == |steps|
    ensures forall i :: 0 <= i < |steps| ==> fs[i] == FindingText(steps[i], answer(steps[i]))
  {
    seq(|steps|, i requires 0 <= i < |steps| => FindingText(steps[i], answer(steps[i])))
  }

  /**
   * The "execute_research" node: the findings of every step, in order, joined by blank lines,
   * become the summary; messages and steps pass through. The summary is empty exactly when
   * there are no steps.
   */
  function ExecuteResult(s: State, answer: Answerer): (r: State)
    ensures r.messages == s.messages && r.nextSteps == s.nextSteps
    ensures r.researchSummary == Join(Findings(s.nextSteps, answer), "\n\n")
    ensures r.researchSummary == "" <==> s.nextSteps == []
  {
    State(s.messages, s.nextSteps, Join(Findings(s.nextSteps, answer), "\n\n"))
  }

  /** Every step's finding appears in the summary. */
  lemma ExecuteShowsEveryStep(s: State, answer: Answerer, i: nat)
    requires i < |s.nextSteps|
    ensures Contains(ExecuteResult(s, answer).researchSummary, FindingText(s.nextSteps[i], answer(s.nextSteps[i])))
  {
    JoinContains(Findings(s.nextSteps, answer), "\n\n", i);
  }

  /** The node itself: one finding per step, accumulated in a loop, then joined. */
  method ExecuteResearch(s: State, answer: Answerer) returns (r: State)
    ensures r == ExecuteResult(s, answer)
  {
    var findings: seq<string> := [];
    var i := 0;
    while i < |s.nextSteps|
      invariant 0 <= i <= |s.nextSteps|
      invariant |findings| == i
      invariant forall j :: 0 <= j < i ==> findings[j] == FindingText(s.nextSteps[j], answer(s.nextSteps[j]))
    {
      var step := s.nextSteps[i];
      findings := findings + [FindingText(step, answer(step))];
      i := i + 1;
    }
    assert findings == Findings(s.nextSteps, answer);
    r := State(s.messages, s.nextSteps, Join(findings, "\n\n"));
  }

  /** The "summarize" node: the final answer is appended as an assistant message, the steps are cleared, the summary kept. */
  function SummarizeResearch(s: State, reply: string): (r: State)
    ensures r.messages == s.messages + [LegacyMessage.ChatEntry("assistant", reply)]
    ensures r.nextSteps == [] && r.researchSummary == s.researchSummary
  {
    State(s.messages + [LegacyMessage.ChatEntry("assistant", reply)], [], s.researchSummary)
  }

  /** The appended answer reaches the client as one more AI message after the earlier conversation. */
  lemma SummaryReadsAsAI(s: State, reply: string)
    ensures Conversation(SummarizeResearch(s, reply).messages) == Conversation(s.messages) + [AI(reply)]
  {
    var ms := SummarizeResearch(s, reply).messages;
    var lhs, rhs := Conversation(ms), Conversation(s.messages) + [AI(reply)];
    forall i | 0 <= i < |lhs| ensures lhs[i] == rhs[i] {
      if i < |s.messages| {
        assert ms[i] == s.messages[i];
      }
    }
  }

  /** The two labels of the conditional edge out of "execute_research". */
  datatype Choice = ContinueResearch | Summarize

  function ChoiceLabel(c: Choice): string {
    match c
    case ContinueResearch => "execute_research"
    case Summarize => "summarize"
  }

  /** The router after "execute_research": back to it while the summary is empty, else on to "summarize". */
  function ShouldContinueResearch(s: State): (c: Choice)
    ensures c == ContinueResearch <==> s.researchSummary == ""
  {
    if s.researchSummary == "" then ContinueResearch else Summarize
  }

  /**
   * The router as evidently intended: research again only while the summary is empty and
   * there is something to research.
   */
  function ShouldContinueResearchFixed(s: State): (c: Choice)
    ensures c == ContinueResearch <==> s.researchSummary == "" && s.nextSteps != []
  {
    if s.researchSummary == "" && s.nextSteps != [] then ContinueResearch else Summarize
  }

  datatype Node = ResearchNode | ExecuteResearchNode | SummarizeNode | EndNode

  /** The run starts at "research". */
  const Entry := ResearchNode

  /** Which router the conditional edge consults: the one as written or the corrected one. */
  datatype Router = AsWritten | Corrected

  function Route(router: Router, s: State): Choice {
    match router
    case AsWritten => ShouldContinueResearch(s)
    case Corrected => ShouldContinueResearchFixed(s)
  }

  /**
   * The edge table: "research" leads to "execute_research", which leads to the node its
   * router's label names, and "summarize" ends the run.
   */
  function Successor(at: Node, s: State, router: Router): (n: Node)
    ensures at == ResearchNode ==> n == ExecuteResearchNode
    ensures at == ExecuteResearchNode ==> (n == ExecuteResearchNode <==> Route(router, s) == ContinueResearch)
    ensures at == ExecuteResearchNode ==> n == ExecuteResearchNode || n == SummarizeNode
    ensures at == SummarizeNode || at == EndNode ==> n == EndNode
  {
    match at
    case ResearchNode => ExecuteResearchNode
    case ExecuteResearchNode => if Route(router, s) == ContinueResearch then ExecuteResearchNode else SummarizeNode
    case SummarizeNode => EndNode
    case EndNode => EndNode
  }

  /** The completion service's replies during one run: the plan, the finding for each step, the final answer. */
  datatype Replies = Replies(plan: string, answer: Answerer, summary: string)

  /** What running one node does to the state. */
  function Apply(at: Node, s: State, replies: Replies): State {
    match at
    case ResearchNode => ResearchTask(s, replies.plan)
    case ExecuteResearchNode => ExecuteResult(s, replies.answer)
    case SummarizeNode => SummarizeResearch(s, replies.summary)
    case EndNode => s
  }

  /**
   * Where a run from node `at` in state `s` stands after at most `fuel` node executions: the
   * node it has reached and the state there. The router sees the state the node just produced.
   */
  function Run(at: Node, s: State, replies: Replies, router: Router, fuel: nat): (Node, State)
    decreases fuel
  {
    if fuel == 0 || at == EndNode then (at, s)
    else
      var s1 := Apply(at, s, replies);
      Run(Successor(at, s1, router), s1, replies, router, fuel - 1)
  }

  /** The state a completed run ends in: the answer appended, no steps, the joined findings kept. */
  function Outcome(messages: seq<LegacyMessage.ChatEntry>, replies: Replies): State {
    State(messages + [LegacyMessage.ChatEntry("assistant", replies.summary)], [],
          Join(Findings(NonBlankLines(replies.plan), replies.answer), "\n\n"))
  }

  /**
   * Once "execute_research" is left with no steps and an empty summary, the router as written
   * sends the run back to it with the state unchanged, however long the run goes on.
   */
  lemma {:induction false} StuckWithoutSteps(s: State, replies: Replies, fuel: nat)
    requires s.nextSteps == [] && s.researchSummary == ""
    ensures Run(ExecuteResearchNode, s, replies, AsWritten, fuel) == (ExecuteResearchNode, s)
    decreases fuel
  {
    if fuel > 0 {
      assert Apply(ExecuteResearchNode, s, replies) == s;
      StuckWithoutSteps(s, replies, fuel - 1);
    }
  }

  /** With the router as written, a plan without a single non-blank line never lets the run end. */
  lemma UnplannedRunNeverEnds(messages: seq<LegacyMessage.ChatEntry>, replies: Replies, fuel: nat)
    requires NonBlankLines(replies.plan) == []
    ensures Run(Entry, Initial(messages), replies, AsWritten, fuel).0 != EndNode
  {
    if fuel > 0 {
      StuckWithoutSteps(ResearchTask(Initial(messages), replies.plan), replies, fuel - 1);
    }
  }

  /** The empty plan is such a plan. */
  lemma EmptyPlanHasNoSteps()
    ensures NonBlankLines("") == []
  {
    assert Split("", '\n') == [[]];
    assert Strip([]) == [];
  }

  /**
   * A router that sends the run on to "summarize" once "execute_research" has run from a
   * fresh plan makes the run pass research, execute_research and summarize once each and end
   * in `Outcome`.
   */
  lemma RunThroughOnce(messages: seq<LegacyMessage.ChatEntry>, replies: Replies, router: Router, fuel: nat)
    requires Route(router, ExecuteResult(ResearchTask(Initial(messages), replies.plan), replies.answer)) == Summarize
    ensures var s0 := Initial(messages);
            var s1 := ResearchTask(s0, replies.plan);
            var s2 := ExecuteResult(s1, replies.answer);
            Run(Entry, s0, replies, router, fuel)
            == (if fuel == 0 then (ResearchNode, s0)
                    else if fuel == 1 then (ExecuteResearchNode, s1)
                    else if fuel == 2 then (SummarizeNode, s2)
                    else (EndNode, Outcome(messages, replies)))
  {
    var s0 := Initial(messages);
    var s1 := ResearchTask(s0, replies.plan);
    var s2 := ExecuteResult(s1, replies.answer);
    if fuel >= 3 {
      assert Run(SummarizeNode, s2, replies, router, fuel - 2) == Run(EndNode, SummarizeResearch(s2, replies.summary), replies, router, fuel - 3);
    }
  }

  /** With the router as written, a plan with at least one step makes the run end in `Outcome` after three nodes. */
  lemma PlannedRunEnds(messages: seq<LegacyMessage.ChatEntry>, replies: Replies, fuel: nat)
    requires NonBlankLines(replies.plan) != [] && fuel >= 3
    ensures Run(Entry, Initial(messages), replies, AsWritten, fuel) == (EndNode, Outcome(messages, replies))
  {
    RunThroughOnce(messages, replies, AsWritten, fuel);
  }

  /** With the corrected router every run ends in `Outcome` after three nodes, whatever the plan. */
  lemma FixedRunAlwaysEnds(messages: seq<LegacyMessage.ChatEntry>, replies: Replies, fuel: nat)
    requires fuel >= 3
    ensures Run(Entry, Initial(messages), replies, Corrected, fuel) == (EndNode, Outcome(messages, replies))
  {
    RunThroughOnce(messages, replies, Corrected, fuel);
  }

  /** When the plan has steps, the corrected router changes nothing about a run. */
  lemma RunsAgreeWhenPlanned(messages: seq<LegacyMessage.ChatEntry>, replies: Replies, fuel: nat)
    requires NonBlankLines(replies.plan) != []
    ensures Run(Entry, Initial(messages), replies, AsWritten, fuel)
            == Run(Entry, Initial(messages), replies, Corrected, fuel)
  {
    RunThroughOnce(messages, replies, AsWritten, fuel);
    RunThroughOnce(messages, replies, Corrected, fuel);
  }
}
