/**
 * The web search tool. It does not reach the network: a query gets a fixed number of
 * simulated results, each naming the query, its own position and the configured engine.
 */
module WebSearch {
  import opened Wrappers
  import opened Text

  datatype SearchResult = SearchResult(title: string, url: string, snippet: string)

  /** The `tool` section of the settings the search tool falls back on. */
  datatype ToolConfig = ToolConfig(searchEngine: string, searchApiKey: Option<string>, maxSearchResults: int)

  /** The settings when no environment variable overrides them. */
  const DefaultToolConfig := ToolConfig("duckduckgo", None, 5)

  /** The number of results a call asks for when it does not say. */
  const DefaultNumResults := 3

  /** How many results a call yields: the smaller of the two limits, and none when that is not positive. */
  function ResultCount(numResults: int, maxResults: int): (n: nat)
    ensures n <= numResults || n == 0
    ensures n <= maxResults || n == 0
    ensures n == numResults || n == maxResults || n == 0
    ensures numResults > 0 && maxResults > 0 ==> n > 0
  {
    var k := if numResults < maxResults then numResults else maxResults;
    if k < 0 then 0 else k
  }

  function Title(query: string, i: nat): string {
    "Search Result " + NatToString(i + 1) + " for '" + query + "'"
  }

  function Url(i: nat): string {
    "https://example.com/result" + NatToString(i + 1)
  }

  function Snippet(query: string, i: nat, engine: string): string {
    "This is a simulated search result " + NatToString(i + 1) + " for the query '" + query
    + "'. In a real implementation, this would return actual search results from " + engine + "."
  }

  /** The `i`-th (from 0) simulated result for `query`. */
  function Simulated(query: string, i: nat, engine: string): SearchResult {
    SearchResult(Title(query, i), Url(i), Snippet(query, i, engine))
  }

  /** The results of one search: the first `ResultCount` simulated results, in order. */
  function Search(query: string, numResults: int, maxResults: int, engine: string): (rs: seq<SearchResult>)
    ensures |rs| == ResultCount(numResults, maxResults)
    ensures forall i :: 0 <= i < |rs| ==> rs[i] == Simulated(query, i, engine)
  {
    seq(ResultCount(numResults, maxResults), i requires 0 <= i => Simulated(query, i, engine))
  }

  class WebSearchTool {
    const apiKey: Option<string>
    const searchEngine: string
    const maxResults: int

    /** Each argument that is missing or falsy (empty, zero) is taken from the settings instead. */
    constructor (apiKey: Option<string>, searchEngine: Option<string>, maxResults: Option<int>, config: ToolConfig)
      ensures this.apiKey == if apiKey.Some? && apiKey.value != [] then apiKey else config.searchApiKey
      ensures this.searchEngine == if searchEngine.Some? && searchEngine.value != [] then searchEngine.value else config.searchEngine
      ensures this.maxResults == if maxResults.Some? && maxResults.value != 0 then maxResults.value else config.maxSearchResults
    {
      this.apiKey := if apiKey.Some? && apiKey.value != [] then apiKey else config.searchApiKey;
      this.searchEngine := if searchEngine.Some? && searchEngine.value != [] then searchEngine.value else config.searchEngine;
      this.maxResults := if maxResults.Some? && maxResults.value != 0 then maxResults.value else config.maxSearchResults;
    }

    /** What a search with this tool returns. */
    function Results(query: string, numResults: int): seq<SearchResult> {
      Search(query, numResults, maxResults, searchEngine)
    }

    /** One search, building the result list one entry at a time. */
    method Run(query: string, numResults: int := DefaultNumResults) returns (results: seq<SearchResult>)
      ensures results == Results(query, numResults)
    {
      var n := ResultCount(numResults, maxResults);
      results := [];
      var i := 0;
      while i < n
        invariant 0 <= i <= n
        invariant |results| == i
        invariant forall j :: 0 <= j < i ==> results[j] == Simulated(query, j, searchEngine)
      {
        results := results + [SearchResult(Title(query, i), Url(i), Snippet(query, i, searchEngine))];
        i := i + 1;
      }
    }
  }

  /** With the default settings and the default count, a search yields three results. */
  lemma DefaultSearchYieldsThree(query: string)
    ensures |Search(query, DefaultNumResults, DefaultToolConfig.maxSearchResults, DefaultToolConfig.searchEngine)| == 3
  {
  }

  /** No two results of one search share a URL. */
  lemma SearchUrlsDistinct(query: string, numResults: int, maxResults: int, engine: string)
    ensures var rs := Search(query, numResults, maxResults, engine);
            forall i, j :: 0 <= i < j < |rs| ==> rs[i].url != rs[j].url
  {
    var rs := Search(query, numResults, maxResults, engine);
    forall i, j | 0 <= i < j < |rs| ensures rs[i].url != rs[j].url {
      var prefix := "https://example.com/result";
      if rs[i].url == rs[j].url {
        assert NatToString(i + 1) == rs[i].url[|prefix|..];
        assert NatToString(j + 1) == rs[j].url[|prefix|..];
        NatToStringInjective(i + 1, j + 1);
      }
    }
  }

  /** Every result names the query in its title and snippet, and the engine in its snippet. */
  lemma SearchMentionsQueryAndEngine(query: string, numResults: int, maxResults: int, engine: string, i: nat)
    requires i < |Search(query, numResults, maxResults, engine)|
    ensures var r := Search(query, numResults, maxResults, engine)[i];
            Contains(r.title, query) && Contains(r.snippet, query) && Contains(r.snippet, engine)
  {
    var n := NatToString(i + 1);
    var t1 := "Search Result " + n + " for '";
    assert Title(query, i) == t1 + query + "'";
    ContainsInfix(t1, query, "'");
    var s1 := "This is a simulated search result " + n + " for the query '";
    var s2 := "'. In a real implementation, this would return actual search results from ";
    assert Snippet(query, i, engine) == s1 + query + (s2 + engine + ".");
    ContainsInfix(s1, query, s2 + engine + ".");
    assert Snippet(query, i, engine) == (s1 + query + s2) + engine + ".";
    ContainsInfix(s1 + query + s2, engine, ".");
  }
}
