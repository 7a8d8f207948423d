/**
 * The researcher agent. A query is broken into research topics, one per non-blank line of the
 * planner's reply (each topic kept once, in first-seen order); every topic without a finding
 * is searched and a finding is synthesized from the results; the findings, in the order they
 * were made, are then summarized. The completion service's replies are parameters.
 */
module Researcher {
  import opened Wrappers
  import opened Values
  import opened Text
  import Message
  import AgentState
  import WebSearch

  predicate NoDup(s: seq<string>) {
    forall i, j :: 0 <= i < j < |s| ==> s[i] != s[j]
  }

  lemma NoDupAppend(a: seq<string>, b: seq<string>)
    requires NoDup(a) && NoDup(b)
    requires forall x :: x in b ==> x !in a
    ensures NoDup(a + b)
  {
    forall i, j | 0 <= i < j < |a + b| ensures (a + b)[i] != (a + b)[j] {
      if j >= |a| && i < |a| {
        assert (a + b)[j] == b[j - |a|] && b[j - |a|] in b;
      }
    }
  }

  /** The elements of a sequence; as many as its length when they are distinct. */
  function Elems(s: seq<string>): (r: set<string>)
    ensures forall x :: x in r <==> x in s
    ensures NoDup(s) ==> |r| == |s|
  {
    if s == [] then {}
    else
      assert NoDup(s) ==> NoDup(s[1..]) && s[0] !in s[1..];
      {s[0]} + Elems(s[1..])
  }

  lemma {:induction false} SubsetCard(a: set<string>, b: set<string>)
    requires a <= b
    ensures |a| <= |b|
    decreases |a|
  {
    if a != {} {
      var x :| x in a;
      SubsetCard(a - {x}, b - {x});
    }
  }

  /** A finding stored under its topic; the findings form a dictionary kept in insertion order. */
  datatype Finding = Finding(topic: string, text: string)

  /** The dictionary's keys, in insertion order. */
  function Keys(fs: seq<Finding>): (ks: seq<string>)
    ensures |ks| == |fs|
    ensures forall i :: 0 <= i < |fs| ==> ks[i] == fs[i].topic
  {
    if fs == [] then [] else [fs[0].topic] + Keys(fs[1..])
  }

  lemma KeysAppend(fs: seq<Finding>, f: Finding)
    ensures Keys(fs + [f]) == Keys(fs) + [f.topic]
  {
  }

  /** `findings.get(topic)`. */
  function Lookup(fs: seq<Finding>, topic: string): (r: Option<string>)
    ensures r.Some? <==> topic in Keys(fs)
    ensures r.Some? ==> exists i :: 0 <= i < |fs| && fs[i] == Finding(topic, r.value)
  {
    if fs == [] then None
    else if fs[0].topic == topic then Some(fs[0].text)
    else
      var r := Lookup(fs[1..], topic);
      assert Keys(fs) == [fs[0].topic] + Keys(fs[1..]);
      r
  }

  /**
   * `findings[topic] = text`: a known topic keeps its place and gets the new text, a new
   * topic goes at the end; no other topic's finding changes.
   */
  function Put(fs: seq<Finding>, topic: string, text: string): (r: seq<Finding>)
    ensures Lookup(r, topic) == Some(text)
    ensures forall t :: t != topic ==> Lookup(r, t) == Lookup(fs, t)
    ensures topic in Keys(fs) ==> Keys(r) == Keys(fs)
    ensures topic !in Keys(fs) ==> r == fs + [Finding(topic, text)]
  {
    if fs == [] then [Finding(topic, text)]
    else if fs[0].topic == topic then [Finding(topic, text)] + fs[1..]
    else
      var rest := Put(fs[1..], topic, text);
      KeysCons(fs[0], rest);
      LookupCons(fs[0], rest);
      ConsAppend(fs, Finding(topic, text));
      [fs[0]] + rest
  }

  lemma KeysCons(f: Finding, rest: seq<Finding>)
    ensures Keys([f] + rest) == [f.topic] + Keys(rest)
  {
    assert ([f] + rest)[1..] == rest;
  }

  lemma LookupCons(f: Finding, rest: seq<Finding>)
    ensures forall t :: Lookup([f] + rest, t) == if f.topic == t then Some(f.text) else Lookup(rest, t)
  {
    assert ([f] + rest)[1..] == rest;
  }

  lemma ConsAppend<T>(s: seq<T>, x: T)
    requires |s| > 0
    ensures [s[0]] + (s[1..] + [x]) == s + [x]
  {
    assert [s[0]] + (s[1..] + [x]) == s + [x];
  }

  /** Storing a finding adds its topic to the keys, and keeps the keys distinct. */
  lemma PutKeys(fs: seq<Finding>, topic: string, text: string)
    ensures forall t :: t in Keys(Put(fs, topic, text)) <==> t in Keys(fs) || t == topic
    ensures NoDup(Keys(fs)) ==> NoDup(Keys(Put(fs, topic, text)))
  {
    if topic !in Keys(fs) {
      KeysAppend(fs, Finding(topic, text));
      if NoDup(Keys(fs)) {
        NoDupAppend(Keys(fs), [topic]);
      }
    }
  }

  /** `add_research_topic`: a topic already listed is not added again. */
  function AddTopic(ts: seq<string>, t: string): seq<string> {
    if t in ts then ts else ts + [t]
  }

  /** Adding a run of topics one after the other. */
  function AddTopics(ts: seq<string>, xs: seq<string>): seq<string>
    decreases |xs|
  {
    if xs == [] then ts else AddTopics(AddTopic(ts, xs[0]), xs[1..])
  }

  /**
   * Adding topics keeps the old ones first and in place, lists each topic once, and ends with
   * exactly the old topics and the added ones.
   */
  lemma {:induction false} AddTopicsSpec(ts: seq<string>, xs: seq<string>)
    ensures ts <= AddTopics(ts, xs)
    ensures NoDup(ts) ==> NoDup(AddTopics(ts, xs))
    ensures forall t :: t in AddTopics(ts, xs) <==> t in ts || t in xs
    decreases |xs|
  {
    if xs != [] {
      var ts1 := AddTopic(ts, xs[0]);
      AddTopicsSpec(ts1, xs[1..]);
      assert xs == [xs[0]] + xs[1..];
    }
  }

  /** A topic finding: what the completion service writes from a topic and its search results. */
  type Synthesizer = (string, seq<WebSearch.SearchResult>) -> string

  /** The finding for `topic`: synthesized from the default-size search the tool makes for it. */
  function Answer(tool: WebSearch.WebSearchTool, synthesize: Synthesizer, topic: string): string {
    synthesize(topic, tool.Results(topic, WebSearch.DefaultNumResults))
  }

  /**
   * One research pass over `topics` from findings `fs`: a topic that already has a finding is
   * skipped, every other one is answered and stored. The result is the topics queried, in
   * order, and the findings afterwards.
   */
  function ResearchAll(topics: seq<string>, fs: seq<Finding>, tool: WebSearch.WebSearchTool, synthesize: Synthesizer)
    : (seq<string>, seq<Finding>)
    decreases |topics|
  {
    if topics == [] then ([], fs)
    else if topics[0] in Keys(fs) then ResearchAll(topics[1..], fs, tool, synthesize)
    else
      var rest := ResearchAll(topics[1..], Put(fs, topics[0], Answer(tool, synthesize, topics[0])), tool, synthesize);
      ([topics[0]] + rest.0, rest.1)
  }

  /**
   * A pass appends the queried topics, in order and each once, to the keys; it queries
   * exactly the topics without a finding.
   */
  lemma {:induction false} ResearchAllKeys(topics: seq<string>, fs: seq<Finding>, tool: WebSearch.WebSearchTool, synthesize: Synthesizer)
    ensures var r := ResearchAll(topics, fs, tool, synthesize);
            && Keys(r.1) == Keys(fs) + r.0
            && NoDup(r.0)
            && forall t :: t in r.0 <==> t in topics && t !in Keys(fs)
    decreases |topics|
  {
    if topics != [] {
      var t0 := topics[0];
      assert forall t :: t in topics <==> t == t0 || t in topics[1..];
      if t0 in Keys(fs) {
        ResearchAllKeys(topics[1..], fs, tool, synthesize);
      } else {
        var fs1 := Put(fs, t0, Answer(tool, synthesize, t0));
        ResearchAllKeys(topics[1..], fs1, tool, synthesize);
        KeysAppend(fs, Finding(t0, Answer(tool, synthesize, t0)));
        var rest := ResearchAll(topics[1..], fs1, tool, synthesize);
        assert t0 in Keys(fs1);
        NoDupAppend([t0], rest.0);
      }
    }
  }

  /** After a pass every topic has a finding. */
  lemma ResearchAllCovers(topics: seq<string>, fs: seq<Finding>, tool: WebSearch.WebSearchTool, synthesize: Synthesizer)
    ensures forall t :: t in topics ==> t in Keys(ResearchAll(topics, fs, tool, synthesize).1)
  {
    ResearchAllKeys(topics, fs, tool, synthesize);
  }

  /** A pass never replaces an existing finding, and stores the answer for every topic it queries. */
  lemma {:induction false} ResearchAllFindings(topics: seq<string>, fs: seq<Finding>, tool: WebSearch.WebSearchTool, synthesize: Synthesizer)
    ensures var r := ResearchAll(topics, fs, tool, synthesize);
            && (forall t :: t in Keys(fs) ==> Lookup(r.1, t) == Lookup(fs, t))
            && (forall t :: t in r.0 ==> Lookup(r.1, t) == Some(Answer(tool, synthesize, t)))
    decreases |topics|
  {
    if topics != [] {
      var t0 := topics[0];
      if t0 in Keys(fs) {
        ResearchAllFindings(topics[1..], fs, tool, synthesize);
      } else {
        var fs1 := Put(fs, t0, Answer(tool, synthesize, t0));
        ResearchAllFindings(topics[1..], fs1, tool, synthesize);
        var r := ResearchAll(topics, fs, tool, synthesize);
        forall t | t in Keys(fs) ensures Lookup(r.1, t) == Lookup(fs, t) {
          assert t != t0;
        }
      }
    }
  }

  /** With every topic already researched, a pass queries nothing and changes nothing. */
  lemma {:induction false} ResearchAllNoop(topics: seq<string>, fs: seq<Finding>, tool: WebSearch.WebSearchTool, synthesize: Synthesizer)
    requires forall t :: t in topics ==> t in Keys(fs)
    ensures ResearchAll(topics, fs, tool, synthesize) == ([], fs)
    decreases |topics|
  {
    if topics != [] {
      assert topics[0] in topics;
      ResearchAllNoop(topics[1..], fs, tool, synthesize);
    }
  }

  /** A second pass over the same topics does nothing. */
  lemma ResearchAllIdempotent(topics: seq<string>, fs: seq<Finding>, tool: WebSearch.WebSearchTool, synthesize: Synthesizer)
    ensures var r := ResearchAll(topics, fs, tool, synthesize);
            ResearchAll(topics, r.1, tool, synthesize) == ([], r.1)
  {
    var r := ResearchAll(topics, fs, tool, synthesize);
    ResearchAllCovers(topics, fs, tool, synthesize);
    ResearchAllNoop(topics, r.1, tool, synthesize);
  }

  lemma AllCoveredNotFewer(topics: seq<string>, ks: seq<string>)
    requires NoDup(topics) && NoDup(ks)
    requires forall t :: t in topics ==> t in ks
    ensures |topics| <= |ks|
  {
    var T, K := Elems(topics), Elems(ks);
    assert T <= K;
    SubsetCard(T, K);
  }

  lemma MissingMeansFewer(topics: seq<string>, ks: seq<string>, t: string)
    requires NoDup(topics) && NoDup(ks)
    requires forall x :: x in ks ==> x in topics
    requires t in topics && t !in ks
    ensures |ks| < |topics|
  {
    var T, K := Elems(topics), Elems(ks);
    var T' := T - {t};
    assert |T'| == |T| - 1;
    assert K <= T';
    SubsetCard(K, T');
  }

  /**
   * With distinct topics and distinct finding keys, each key a topic, fewer keys than topics
   * means exactly that some topic still lacks a finding.
   */
  lemma FewerFindingsIffTopicPending(topics: seq<string>, ks: seq<string>)
    requires NoDup(topics) && NoDup(ks)
    requires forall t :: t in ks ==> t in topics
    ensures |ks| < |topics| <==> exists t :: t in topics && t !in ks
  {
    if forall t :: t in topics ==> t in ks {
      AllCoveredNotFewer(topics, ks);
    } else {
      var t :| t in topics && t !in ks;
      MissingMeansFewer(topics, ks, t);
    }
  }

  /** After one pass over distinct topics that cover the findings, there is exactly one finding per topic. */
  lemma ResearchAllCompletes(topics: seq<string>, fs: seq<Finding>, tool: WebSearch.WebSearchTool, synthesize: Synthesizer)
    requires NoDup(topics) && NoDup(Keys(fs))
    requires forall t :: t in Keys(fs) ==> t in topics
    ensures var r := ResearchAll(topics, fs, tool, synthesize);
            |r.1| == |topics| && NoDup(Keys(r.1)) && (forall t :: t in Keys(r.1) <==> t in topics)
  {
    var r := ResearchAll(topics, fs, tool, synthesize);
    ResearchAllKeys(topics, fs, tool, synthesize);
    NoDupAppend(Keys(fs), r.0);
    assert Elems(Keys(r.1)) == Elems(topics);
  }

  /** The report section for one finding. */
  function FindingEntry(f: Finding): string {
    "## " + f.topic + "\n\n" + f.text + "\n\n"
  }

  function FindingEntries(fs: seq<Finding>): (es: seq<string>)
    ensures |es| == |fs|
    ensures forall i :: 0 <= i < |fs| ==> es[i] == FindingEntry(fs[i])
  {
    seq(|fs|, i requires 0 <= i < |fs| => FindingEntry(fs[i]))
  }

  /** The findings listing the summary prompt is built from, in insertion order. */
  function FindingsText(fs: seq<Finding>): string {
    Concat(FindingEntries(fs))
  }

  /** Every finding's section appears in the listing. */
  lemma FindingsTextShowsEveryFinding(fs: seq<Finding>, i: nat)
    requires i < |fs|
    ensures Contains(FindingsText(fs), FindingEntry(fs[i]))
  {
    var es := FindingEntries(fs);
    ConcatAt(es, i);
    ContainsInfix(Concat(es[..i]), es[i], Concat(es[i + 1..]));
  }

  /** Builds the findings listing one section at a time. */
  method BuildFindingsText(fs: seq<Finding>) returns (text: string)
    ensures text == FindingsText(fs)
  {
    var es := FindingEntries(fs);
    text := "";
    var i := 0;
    while i < |fs|
      invariant 0 <= i <= |fs|
      invariant text == Concat(es[..i])
    {
      text := text + FindingEntry(fs[i]);
      assert es[..i + 1][..i] == es[..i];
      i := i + 1;
    }
    assert es[..|fs|] == es;
  }

  class ResearcherState {
    const agent: AgentState.AgentState
    var researchTopics: seq<string>
    var findings: seq<Finding>
    var summary: string

    /** Topics are listed once each, findings are keyed by distinct topics, and every finding is about a listed topic. */
    ghost predicate Valid()
      reads this
    {
      && NoDup(researchTopics)
      && NoDup(Keys(findings))
      && (forall t :: t in Keys(findings) ==> t in researchTopics)
    }

    constructor ()
      ensures Valid()
      ensures fresh(agent) && fresh(agent.thread) && agent.thread.messages == []
      ensures researchTopics == [] && findings == [] && summary == ""
      ensures agent.nodeOutputs == map[] && agent.errors == [] && agent.currentNode == None && agent.nextNode == None
    {
      agent := new AgentState.AgentState();
      researchTopics := [];
      findings := [];
      summary := "";
    }

    method AddResearchTopic(topic: string)
      modifies this
      ensures researchTopics == AddTopic(old(researchTopics), topic)
      ensures findings == old(findings) && summary == old(summary)
      ensures old(Valid()) ==> Valid()
    {
      if topic !in researchTopics {
        researchTopics := researchTopics + [topic];
      }
    }

    method AddResearchFinding(topic: string, finding: string)
      modifies this
      ensures findings == Put(old(findings), topic, finding)
      ensures researchTopics == old(researchTopics) && summary == old(summary)
      ensures old(Valid()) && topic in researchTopics ==> Valid()
    {
      PutKeys(findings, topic, finding);
      findings := Put(findings, topic, finding);
    }

    method SetSummary(summary: string)
      modifies this
      ensures this.summary == summary
      ensures researchTopics == old(researchTopics) && findings == old(findings)
    {
      this.summary := summary;
    }

    predicate HasFinding(topic: string)
      reads this
    {
      topic in Keys(findings)
    }
  }

  datatype Step = IdentifyTopicsStep | ResearchTopicsStep | CreateSummaryStep | EndStep

  function StepName(s: Step): string {
    match s
    case IdentifyTopicsStep => "identify_research_topics"
    case ResearchTopicsStep => "research_topics"
    case CreateSummaryStep => "create_summary"
    case EndStep => "end"
  }

  /**
   * The router: identify topics when there are none, research while there are fewer findings
   * than topics, summarize when there are findings but no summary, else end.
   */
  function DecideNextStep(s: ResearcherState): (step: Step)
    reads s
    ensures step == IdentifyTopicsStep <==> s.researchTopics == []
    ensures step == ResearchTopicsStep <==> s.researchTopics != [] && |s.findings| < |s.researchTopics|
    ensures step == EndStep <==> s.researchTopics != [] && |s.findings| >= |s.researchTopics| && (s.findings == [] || s.summary != "")
  {
    if s.researchTopics == [] then IdentifyTopicsStep
    else if |s.findings| < |s.researchTopics| then ResearchTopicsStep
    else if s.findings != [] && s.summary == "" then CreateSummaryStep
    else EndStep
  }

  /** In a valid state the router sends the run to research exactly when some topic lacks a finding. */
  lemma RoutesToResearchIffTopicPending(s: ResearcherState)
    requires s.Valid() && s.researchTopics != []
    ensures DecideNextStep(s) == ResearchTopicsStep <==> exists t :: t in s.researchTopics && t !in Keys(s.findings)
  {
    FewerFindingsIffTopicPending(s.researchTopics, Keys(s.findings));
  }

  /** Adds each topic in order, skipping those already listed. */
  method AddResearchTopics(state: ResearcherState, topics: seq<string>)
    modifies state
    ensures state.researchTopics == AddTopics(old(state.researchTopics), topics)
    ensures state.findings == old(state.findings) && state.summary == old(state.summary)
    ensures old(state.Valid()) ==> state.Valid()
  {
    var i := 0;
    while i < |topics|
      invariant 0 <= i <= |topics|
      invariant AddTopics(state.researchTopics, topics[i..]) == AddTopics(old(state.researchTopics), topics)
      invariant state.findings == old(state.findings) && state.summary == old(state.summary)
      invariant old(state.Valid()) ==> state.Valid()
    {
      assert topics[i..][1..] == topics[i + 1..];
      state.AddResearchTopic(topics[i]);
      i := i + 1;
    }
  }

  /**
   * The topic node. With no user message in the thread it logs an error and changes nothing
   * else; otherwise each non-blank line of `reply` (the planner's answer about the last user
   * query), stripped, is added as a topic, the list is recorded as this node's output and
   * "research_topics" is named next.
   */
  method IdentifyResearchTopics(state: ResearcherState, reply: string)
    modifies state, state.agent
    ensures Message.LastUserContent(state.agent.thread.messages).None? ==>
              && state.agent.errors == old(state.agent.errors)
                   + [AgentState.ErrorRecord("identify_research_topics", "No user message found in state", map[])]
              && state.researchTopics == old(state.researchTopics)
              && state.agent.nodeOutputs == old(state.agent.nodeOutputs)
              && state.agent.currentNode == old(state.agent.currentNode)
              && state.agent.nextNode == old(state.agent.nextNode)
    ensures Message.LastUserContent(state.agent.thread.messages).Some? ==>
              && state.researchTopics == AddTopics(old(state.researchTopics), NonBlankLines(reply))
              && state.agent.nodeOutputs == AgentState.Record(old(state.agent.nodeOutputs),
                   AgentState.NodeOutput("identify_research_topics", StrList(NonBlankLines(reply)), "completed", None))
              && state.agent.currentNode == old(state.agent.nextNode)
              && state.agent.nextNode == Some(StepName(ResearchTopicsStep))
              && state.agent.errors == old(state.agent.errors)
    ensures state.findings == old(state.findings) && state.summary == old(state.summary)
    ensures old(state.Valid()) ==> state.Valid()
  {
    if Message.LastUserContent(state.agent.thread.messages).None? {
      state.agent.AddError("identify_research_topics", "No user message found in state");
      return;
    }
    var topics := NonBlankLines(reply);
    AddResearchTopics(state, topics);
    state.agent.AddNodeOutput("identify_research_topics", StrList(topics));
    state.agent.SetNextNode(StepName(ResearchTopicsStep));
  }

  /** One step of a pass over the topics from position `i`. */
  lemma ResearchAllStep(topics: seq<string>, i: nat, fs: seq<Finding>, tool: WebSearch.WebSearchTool, synthesize: Synthesizer)
    requires i < |topics|
    ensures topics[i] in Keys(fs) ==>
              ResearchAll(topics[i..], fs, tool, synthesize) == ResearchAll(topics[i + 1..], fs, tool, synthesize)
    ensures topics[i] !in Keys(fs) ==>
              var rest := ResearchAll(topics[i + 1..], Put(fs, topics[i], Answer(tool, synthesize, topics[i])), tool, synthesize);
              ResearchAll(topics[i..], fs, tool, synthesize) == ([topics[i]] + rest.0, rest.1)
  {
    assert topics[i..][0] == topics[i] && topics[i..][1..] == topics[i + 1..];
  }

  /** Researching one topic: searched and answered only when it has no finding yet; says whether it was. */
  method ResearchTopic(state: ResearcherState, tool: WebSearch.WebSearchTool, synthesize: Synthesizer, topic: string)
    returns (asked: bool)
    modifies state
    ensures asked <==> topic !in Keys(old(state.findings))
    ensures state.findings == if asked then Put(old(state.findings), topic, Answer(tool, synthesize, topic)) else old(state.findings)
    ensures state.researchTopics == old(state.researchTopics) && state.summary == old(state.summary)
    ensures old(state.Valid()) && topic in state.researchTopics ==> state.Valid()
  {
    asked := !state.HasFinding(topic);
    if asked {
      var results := tool.Run(topic);
      var finding := synthesize(topic, results);
      state.AddResearchFinding(topic, finding);
    }
  }

  /** The loop of the research node: each topic without a finding is searched and answered, in order. */
  method ResearchPass(state: ResearcherState, tool: WebSearch.WebSearchTool, synthesize: Synthesizer)
    returns (queried: seq<string>)
    modifies state
    ensures (queried, state.findings) == ResearchAll(old(state.researchTopics), old(state.findings), tool, synthesize)
    ensures state.researchTopics == old(state.researchTopics) && state.summary == old(state.summary)
    ensures old(state.Valid()) ==> state.Valid()
  {
    var topics := state.researchTopics;
    ghost var total := ResearchAll(topics, state.findings, tool, synthesize);
    queried := [];
    var i := 0;
    assert topics[0..] == topics;
    while i < |topics|
      invariant 0 <= i <= |topics|
      invariant state.researchTopics == topics && state.summary == old(state.summary)
      invariant var rest := ResearchAll(topics[i..], state.findings, tool, synthesize);
                queried + rest.0 == total.0 && rest.1 == total.1
      invariant old(state.Valid()) ==> state.Valid()
    {
      ghost var before := state.findings;
      var asked := ResearchTopic(state, tool, synthesize, topics[i]);
      PassStep(topics, i, queried, before, state.findings, asked, tool, synthesize, total);
      if asked {
        queried := queried + [topics[i]];
      }
      i := i + 1;
    }
    PassDone(topics, i, queried, state.findings, tool, synthesize, total);
  }

  /** The loop invariant of a research pass survives one topic. */
  lemma PassStep(topics: seq<string>, i: nat, queried: seq<string>, fs: seq<Finding>, fs': seq<Finding>, asked: bool,
                 tool: WebSearch.WebSearchTool, synthesize: Synthesizer, total: (seq<string>, seq<Finding>))
    requires i < |topics|
    requires var rest := ResearchAll(topics[i..], fs, tool, synthesize);
             queried + rest.0 == total.0 && rest.1 == total.1
    requires asked <==> topics[i] !in Keys(fs)
    requires fs' == if asked then Put(fs, topics[i], Answer(tool, synthesize, topics[i])) else fs
    ensures var q := if asked then queried + [topics[i]] else queried;
            var rest := ResearchAll(topics[i + 1..], fs', tool, synthesize);
            q + rest.0 == total.0 && rest.1 == total.1
  {
    ResearchAllStep(topics, i, fs, tool, synthesize);
    var whole := ResearchAll(topics[i..], fs, tool, synthesize);
    var rest := ResearchAll(topics[i + 1..], fs', tool, synthesize);
    if asked {
      assert whole == ([topics[i]] + rest.0, rest.1);
      AppendAssoc(queried, [topics[i]], rest.0);
    } else {
      assert whole == rest;
    }
  }

  /** At the end of a research pass the invariant gives the whole pass. */
  lemma PassDone(topics: seq<string>, i: nat, queried: seq<string>, fs: seq<Finding>,
                 tool: WebSearch.WebSearchTool, synthesize: Synthesizer, total: (seq<string>, seq<Finding>))
    requires i == |topics|
    requires var rest := ResearchAll(topics[i..], fs, tool, synthesize);
             queried + rest.0 == total.0 && rest.1 == total.1
    ensures queried == total.0 && fs == total.1
  {
    assert topics[i..] == [];
    assert queried + [] == queried;
  }

  /**
   * The research node: one pass over the topics with `tool` searching and `synthesize`
   * standing for the completion service; returns the topics it queried. The keys of the
   * findings are recorded as this node's output and "create_summary" is named next.
   */
  method ResearchTopics(state: ResearcherState, tool: WebSearch.WebSearchTool, synthesize: Synthesizer)
    returns (queried: seq<string>)
    modifies state, state.agent
    ensures (queried, state.findings) == ResearchAll(old(state.researchTopics), old(state.findings), tool, synthesize)
    ensures state.researchTopics == old(state.researchTopics) && state.summary == old(state.summary)
    ensures state.agent.nodeOutputs == AgentState.Record(old(state.agent.nodeOutputs),
              AgentState.NodeOutput("research_topics", StrList(Keys(state.findings)), "completed", None))
    ensures state.agent.currentNode == old(state.agent.nextNode) && state.agent.nextNode == Some(StepName(CreateSummaryStep))
    ensures state.agent.errors == old(state.agent.errors)
    ensures old(state.Valid()) ==> state.Valid()
  {
    queried := ResearchPass(state, tool, synthesize);
    state.agent.AddNodeOutput("research_topics", StrList(Keys(state.findings)));
    state.agent.SetNextNode(StepName(CreateSummaryStep));
  }

  /**
   * The summary node: lists the findings (returned, as the text the summary prompt is built
   * from), stores `reply`, the completion service's summary, as the summary, adds it to the
   * thread as an assistant message and records it as this node's output.
   */
  method CreateSummary(state: ResearcherState, reply: string) returns (findingsText: string)
    modifies state, state.agent, state.agent.thread
    ensures findingsText == FindingsText(old(state.findings))
    ensures state.summary == reply
    ensures state.researchTopics == old(state.researchTopics) && state.findings == old(state.findings)
    ensures state.agent.thread.messages == old(state.agent.thread.messages) + [Message.Message(Message.Assistant, reply, None, None, None)]
    ensures state.agent.nodeOutputs == AgentState.Record(old(state.agent.nodeOutputs),
              AgentState.NodeOutput("create_summary", Str(reply), "completed", None))
    ensures state.agent.errors == old(state.agent.errors)
    ensures state.agent.currentNode == old(state.agent.currentNode) && state.agent.nextNode == old(state.agent.nextNode)
  {
    findingsText := BuildFindingsText(state.findings);
    state.SetSummary(reply);
    var _ := state.agent.thread.AddAssistantMessage(reply);
    state.agent.AddNodeOutput("create_summary", Str(reply));
  }
}
