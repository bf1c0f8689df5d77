/** graph/nodes/searcher.py: URLs per subtopic, with a per-subtopic placeholder on failure. */
module Searcher {
  import opened Wrappers
  import opened Text
  import opened Lists
  import opened Dicts
  import opened State
  import SearchTool

  /** The backend tag the node passes to the dispatcher. */
  const SearcherBackend := "duckduckgo"
  const MaxUrls: nat := 5

  /** A search call as the node sees it: a query in, hits or an exception out. */
  type Search = string -> Result<seq<SearchTool.SearchHit>>

  /** The call the node makes for a query. */
  function DispatchSearch(query: string): Result<seq<SearchTool.SearchHit>>
  {
    SearchTool.SearchWeb(query, SearcherBackend, MaxUrls)
  }

  function HitUrls(hits: seq<SearchTool.SearchHit>): (urls: seq<string>)
    ensures |urls| == |hits| && forall i :: 0 <= i < |hits| ==> urls[i] == hits[i].url
  {
    seq(|hits|, i requires 0 <= i < |hits| => hits[i].url)
  }

  /** `if r.get("url")`: a present, non-empty URL. */
  predicate IsPresentUrl(url: string)
  {
    url != ""
  }

  /** `url.startswith("http")`. */
  predicate IsHttpUrl(url: string)
  {
    "http" <= url
  }

  /**
   * The URLs kept from a successful search: non-empty, starting with "http", at most
   * five, and the first five such URLs in result order (the non-empty test is implied).
   */
  function KeptUrls(hits: seq<SearchTool.SearchHit>): (urls: seq<string>)
    ensures |urls| <= MaxUrls
    ensures forall k :: 0 <= k < |urls| ==> urls[k] != "" && IsHttpUrl(urls[k])
    ensures urls == Take(Filter(HitUrls(hits), IsHttpUrl), MaxUrls)
  {
    var present := Filter(HitUrls(hits), IsPresentUrl);
    FilterSubsumed(HitUrls(hits), IsPresentUrl, IsHttpUrl);
    Take(Filter(present, IsHttpUrl), MaxUrls)
  }

  const ArticleUrlPrefix := "https://example.com/article"

  /** The three placeholder URLs that stand in for a failed search. */
  function PlaceholderUrls(name: string): (urls: seq<string>)
    ensures |urls| == 3
    ensures forall k :: 0 <= k < 3 ==> urls[k] == ArticleUrlPrefix + Decimal(k + 1) + "-" + name
    ensures forall k :: 0 <= k < 3 ==> IsHttpUrl(urls[k])
    ensures forall j, k :: 0 <= j < k < 3 ==> urls[j] != urls[k]
  {
    var urls := [ ArticleUrlPrefix + "1-" + name,
                  ArticleUrlPrefix + "2-" + name,
                  ArticleUrlPrefix + "3-" + name ];
    assert urls[0][|ArticleUrlPrefix|] == '1' && urls[1][|ArticleUrlPrefix|] == '2' && urls[2][|ArticleUrlPrefix|] == '3';
    urls
  }

  /** One iteration of the loop: what it stores for a subtopic, given what the search call did. */
  function UrlsFor(outcome: Result<seq<SearchTool.SearchHit>>, name: string): (urls: seq<string>)
    ensures outcome.Ok? ==> urls == KeptUrls(outcome.value)
    ensures outcome.Err? ==> urls == PlaceholderUrls(name)
    ensures |urls| <= MaxUrls && forall k :: 0 <= k < |urls| ==> IsHttpUrl(urls[k])
  {
    match outcome
    case Ok(hits) => KeptUrls(hits)
    case Err(_) => PlaceholderUrls(name)
  }

  /** The assignments the loop makes, in order: one per subtopic, keyed by its name. */
  function SearchEntries(subtopics: seq<Subtopic>, search: Search): (entries: seq<(string, seq<string>)>)
    ensures |entries| == |subtopics|
    ensures forall i :: 0 <= i < |subtopics| ==> entries[i].0 == subtopics[i].name
  {
    seq(|subtopics|, i requires 0 <= i < |subtopics| =>
      (subtopics[i].name, UrlsFor(search(subtopics[i].searchQuery), subtopics[i].name)))
  }

  /** The `search_results` dict the loop leaves. */
  function SearchResults(subtopics: seq<Subtopic>, search: Search): (results: Dict<seq<string>>)
    ensures UniqueKeys(results)
  {
    Assigned(SearchEntries(subtopics, search))
  }

  /** The dict has exactly one entry per subtopic name, and no other key. */
  lemma {:induction false} SearchResultsKeys(subtopics: seq<Subtopic>, search: Search, name: string)
    ensures UniqueKeys(SearchResults(subtopics, search))
    ensures name in Keys(SearchResults(subtopics, search)) <==> exists i :: 0 <= i < |subtopics| && subtopics[i].name == name
  {
    var entries := SearchEntries(subtopics, search);
    AssignedKeys(entries, name);
    if name in Keys(entries) {
      var i :| 0 <= i < |entries| && Keys(entries)[i] == name;
      assert subtopics[i].name == name;
    }
  }

  /** With distinct names (the planner's), entry i belongs to subtopic i. */
  lemma {:induction false} SearchResultsInOrder(subtopics: seq<Subtopic>, search: Search)
    requires forall i, j :: 0 <= i < j < |subtopics| ==> subtopics[i].name != subtopics[j].name
    ensures SearchResults(subtopics, search) == SearchEntries(subtopics, search)
  {
    AssignedDistinct(SearchEntries(subtopics, search));
  }

  /**
   * Per-subtopic isolation: the entry for a name depends only on the search outcomes of
   * the subtopics with that name, so another subtopic's failure cannot change it.
   */
  lemma {:induction false} SearchIsolation(subtopics: seq<Subtopic>, search1: Search, search2: Search, name: string)
    requires forall i :: 0 <= i < |subtopics| && subtopics[i].name == name ==>
               search1(subtopics[i].searchQuery) == search2(subtopics[i].searchQuery)
    ensures Get(SearchResults(subtopics, search1), name) == Get(SearchResults(subtopics, search2), name)
  {
    var e1, e2 := SearchEntries(subtopics, search1), SearchEntries(subtopics, search2);
    AssignedGet(e1, name);
    AssignedGet(e2, name);
    LastValueAgrees(e1, e2, name);
  }

  lemma {:induction false} LastValueAgrees(e1: seq<(string, seq<string>)>, e2: seq<(string, seq<string>)>, name: string)
    requires |e1| == |e2|
    requires forall i :: 0 <= i < |e1| ==> e1[i].0 == e2[i].0
    requires forall i :: 0 <= i < |e1| && e1[i].0 == name ==> e1[i].1 == e2[i].1
    ensures LastValue(e1, name) == LastValue(e2, name)
  {
    if e1 != [] {
      var n := |e1| - 1;
      LastValueAgrees(e1[..n], e2[..n], name);
    }
  }

  /** The dispatcher rejects "duckduckgo", so the node's search always raises. */
  lemma {:induction false} DispatchSearchFails(query: string)
    ensures DispatchSearch(query) == Err("Unknown backend: duckduckgo")
  {
  }

  /** Hence, as shipped, every subtopic name gets its three placeholder URLs. */
  lemma {:induction false} ShippedSearchPlaceholders(subtopics: seq<Subtopic>, i: nat)
    requires i < |subtopics|
    ensures Get(SearchResults(subtopics, DispatchSearch), subtopics[i].name) == Some(PlaceholderUrls(subtopics[i].name))
  {
    var entries := SearchEntries(subtopics, DispatchSearch);
    forall j | 0 <= j < |entries| ensures entries[j].1 == PlaceholderUrls(entries[j].0) {
      DispatchSearchFails(subtopics[j].searchQuery);
    }
    AssignedGet(entries, subtopics[i].name);
    LastValuePlaceholder(entries, subtopics[i].name, i);
  }

  lemma {:induction false} LastValuePlaceholder(entries: seq<(string, seq<string>)>, name: string, i: nat)
    requires i < |entries| && entries[i].0 == name
    requires forall j :: 0 <= j < |entries| ==> entries[j].1 == PlaceholderUrls(entries[j].0)
    ensures LastValue(entries, name) == Some(PlaceholderUrls(name))
  {
    var n := |entries| - 1;
    if entries[n].0 != name {
      LastValuePlaceholder(entries[..n], name, i);
    }
  }

  /** The loop of `search_web`: one search per subtopic, each failure caught on its own. */
  method CollectSearchResults(subtopics: seq<Subtopic>) returns (results: Dict<seq<string>>)
    ensures results == SearchResults(subtopics, DispatchSearch)
  {
    results := [];
    for i := 0 to |subtopics|
      invariant results == SearchResults(subtopics[..i], DispatchSearch)
    {
      var subtopic := subtopics[i];
      var urls: seq<string>;
      var outcome := SearchTool.SearchWeb(subtopic.searchQuery, SearcherBackend, MaxUrls);
      match outcome {
        case Ok(hits) =>
          var present := Filter(HitUrls(hits), IsPresentUrl);
          urls := Take(Filter(present, IsHttpUrl), MaxUrls);
        case Err(_) =>
          urls := PlaceholderUrls(subtopic.name);
      }
      assert urls == UrlsFor(DispatchSearch(subtopic.searchQuery), subtopic.name);
      SearchStep(subtopics, DispatchSearch, i);
      results := Put(results, subtopic.name, urls);
    }
    assert subtopics[..|subtopics|] == subtopics;
  }

  /** One more subtopic assigns its URLs on top of the dict so far. */
  lemma {:induction false} SearchStep(subtopics: seq<Subtopic>, search: Search, i: nat)
    requires i < |subtopics|
    ensures SearchResults(subtopics[..i + 1], search)
            == Put(SearchResults(subtopics[..i], search),
                   subtopics[i].name, UrlsFor(search(subtopics[i].searchQuery), subtopics[i].name))
  {
    var entries := SearchEntries(subtopics[..i + 1], search);
    assert entries[..i] == SearchEntries(subtopics[..i], search);
    assert entries[i] == (subtopics[i].name, UrlsFor(search(subtopics[i].searchQuery), subtopics[i].name));
  }

  /** `search_web` (the node): writes `_search_results` and nothing else. */
  method SearchWeb(st: ReviewState)
    modifies st`searchResults
    ensures st.searchResults == Present(SearchResults(st.subtopics, DispatchSearch))
  {
    var results := CollectSearchResults(st.subtopics);
    st.searchResults := Present(results);
  }
}
