/** tools/search_tool.py: the placeholder search backends and the dispatcher over them. */
module SearchTool {
  import opened Wrappers
  import opened Text

  /** One search result dict: `title`, `url`, `snippet`. */
  datatype SearchHit = SearchHit(title: string, url: string, snippet: string)

  const ResultUrlPrefix := "https://example.com/result"

  /** The placeholder hit at 1-based position `rank`. */
  function PlaceholderHit(query: string, rank: nat): SearchHit
  {
    SearchHit("Result " + Decimal(rank) + " for " + query,
              ResultUrlPrefix + Decimal(rank),
              "Snippet for result " + Decimal(rank))
  }

  /**
   * `search_brave`: `range(num_results)` placeholder hits, none when num_results <= 0.
   * Each URL carries its 1-based rank after the fixed prefix.
   */
  function SearchBrave(query: string, numResults: int): (r: seq<SearchHit>)
    ensures |r| == if numResults <= 0 then 0 else numResults
    ensures forall i :: 0 <= i < |r| ==>
              "https://" <= r[i].url && ResultUrlPrefix <= r[i].url
              && ParseDecimal(r[i].url[|ResultUrlPrefix|..]) == i + 1
    ensures forall i, j :: 0 <= i < j < |r| ==> r[i].url != r[j].url
    ensures forall i :: 0 <= i < |r| ==> |query| <= |r[i].title| && r[i].title[|r[i].title| - |query|..] == query
  {
    var n := if numResults <= 0 then 0 else numResults;
    var hits := seq(n, i requires 0 <= i < n => PlaceholderHit(query, i + 1));
    forall i | 0 <= i < n
      ensures "https://" <= hits[i].url && ResultUrlPrefix <= hits[i].url
      ensures ParseDecimal(hits[i].url[|ResultUrlPrefix|..]) == i + 1
      ensures |query| <= |hits[i].title| && hits[i].title[|hits[i].title| - |query|..] == query
    {
      PlaceholderHitShape(query, i + 1);
    }
    hits
  }

  /** A placeholder hit's URL is the prefix and then its rank, and its title ends with the query. */
  lemma {:induction false} PlaceholderHitShape(query: string, rank: nat)
    ensures var hit := PlaceholderHit(query, rank);
            && "https://" <= hit.url && ResultUrlPrefix <= hit.url
            && ParseDecimal(hit.url[|ResultUrlPrefix|..]) == rank
            && |query| <= |hit.title| && hit.title[|hit.title| - |query|..] == query
  {
    var hit := PlaceholderHit(query, rank);
    assert hit.url[|ResultUrlPrefix|..] == Decimal(rank);
    DecimalRoundTrip(rank);
    var lead := "Result " + Decimal(rank) + " for ";
    assert hit.title == lead + query;
    assert hit.title[|lead|..] == query;
  }

  /** `search_serp`: delegates to the Brave placeholder. */
  function SearchSerp(query: string, numResults: int): (r: seq<SearchHit>)
    ensures r == SearchBrave(query, numResults)
  {
    SearchBrave(query, numResults)
  }

  /** `search_web`: "brave" and "serp" are served; any other tag raises ValueError. */
  function SearchWeb(query: string, backend: string, numResults: int): (r: Result<seq<SearchHit>>)
    ensures r.Ok? <==> backend == "brave" || backend == "serp"
    ensures r.Ok? ==> r.value == SearchBrave(query, numResults)
    ensures r.Err? ==> r.message == "Unknown backend: " + backend
  {
    if backend == "brave" then Ok(SearchBrave(query, numResults))
    else if backend == "serp" then Ok(SearchSerp(query, numResults))
    else Err("Unknown backend: " + backend)
  }
}
