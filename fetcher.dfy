/** graph/nodes/fetcher.py: one placeholder Document per URL found by the searcher. */
module Fetcher {
  import opened Lists
  import opened Dicts
  import opened State

  /** The placeholder document the node builds for a URL of a subtopic. */
  function PlaceholderDocument(url: string, subtopicName: string): Document
  {
    Document(url, TitleLead + subtopicName, ContentLead + url + ContentTail, subtopicName)
  }

  const TitleLead := "Article about "
  const ContentLead := "Placeholder content for "
  const ContentTail := ". This would contain actual scraped text."

  /** The inner loop: one document per URL of one entry, in URL order. */
  function DocumentsFor(subtopicName: string, urls: seq<string>): (docs: seq<Document>)
    ensures |docs| == |urls|
    ensures forall j :: 0 <= j < |urls| ==> docs[j] == PlaceholderDocument(urls[j], subtopicName)
  {
    if urls == [] then []
    else
      var n := |urls| - 1;
      DocumentsFor(subtopicName, urls[..n]) + [PlaceholderDocument(urls[n], subtopicName)]
  }

  /** The number of URLs across all entries. */
  function TotalUrls(results: Dict<seq<string>>): nat
  {
    if results == [] then 0 else TotalUrls(results[..|results| - 1]) + |results[|results| - 1].1|
  }

  /** All URLs, entry after entry, each entry's in its own order. */
  function AllUrls(results: Dict<seq<string>>): seq<string>
  {
    if results == [] then [] else AllUrls(results[..|results| - 1]) + results[|results| - 1].1
  }

  function DocumentUrls(docs: seq<Document>): (urls: seq<string>)
    ensures |urls| == |docs| && forall i :: 0 <= i < |docs| ==> urls[i] == docs[i].url
  {
    seq(|docs|, i requires 0 <= i < |docs| => docs[i].url)
  }

  /** The documents of `fetch_pages`: one per URL, entry after entry. */
  function Documents(results: Dict<seq<string>>): (docs: seq<Document>)
    ensures |docs| == TotalUrls(results)
  {
    if results == [] then []
    else
      var n := |results| - 1;
      Documents(results[..n]) + DocumentsFor(results[n].0, results[n].1)
  }

  /** The document URLs are all URLs in entry order, then URL order within each entry. */
  lemma {:induction false} DocumentsUrls(results: Dict<seq<string>>)
    ensures DocumentUrls(Documents(results)) == AllUrls(results)
  {
    if results != [] {
      var n := |results| - 1;
      var prev, here := Documents(results[..n]), DocumentsFor(results[n].0, results[n].1);
      DocumentsUrls(results[..n]);
      DocumentUrlsAppend(prev, here);
      assert DocumentUrls(here) == results[n].1;
    }
  }

  lemma {:induction false} DocumentUrlsAppend(a: seq<Document>, b: seq<Document>)
    ensures DocumentUrls(a + b) == DocumentUrls(a) + DocumentUrls(b)
  {
    var ab := a + b;
    assert forall i :: 0 <= i < |a| ==> ab[i] == a[i];
    assert forall i :: 0 <= i < |b| ==> ab[|a| + i] == b[i];
  }

  /** Every document is the placeholder for its URL, owned by (and titled after) an entry key. */
  lemma {:induction false} DocumentsOwned(results: Dict<seq<string>>, i: nat)
    requires i < |Documents(results)|
    ensures Documents(results)[i] == PlaceholderDocument(Documents(results)[i].url, Documents(results)[i].subtopic)
    ensures Documents(results)[i].subtopic in Keys(results)
  {
    var n := |results| - 1;
    var prev := Documents(results[..n]);
    KeysSnoc(results[..n], results[n]);
    assert results[..n] + [results[n]] == results;
    if i < |prev| {
      DocumentsOwned(results[..n], i);
    }
  }

  /** Documents keep entry order: the documents of a concatenation are concatenated. */
  lemma {:induction false} DocumentsAppend(a: Dict<seq<string>>, b: Dict<seq<string>>)
    ensures Documents(a + b) == Documents(a) + Documents(b)
    decreases |b|
  {
    if b == [] {
      assert a + b == a;
    } else {
      var n := |b| - 1;
      var front, last := b[..n], b[n];
      assert b == front + [last];
      assert a + b == (a + front) + [last];
      DocumentsAppend(a, front);
      DocumentsSnoc(a + front, last);
      DocumentsSnoc(front, last);
      AppendAssoc(Documents(a), Documents(front), DocumentsFor(last.0, last.1));
    }
  }

  /** One more entry appends its documents. */
  lemma {:induction false} DocumentsSnoc(d: Dict<seq<string>>, e: (string, seq<string>))
    ensures Documents(d + [e]) == Documents(d) + DocumentsFor(e.0, e.1)
  {
    assert (d + [e])[..|d|] == d;
  }

  /** The loops of `fetch_pages` over the entries and their URLs. */
  method CollectDocuments(results: Dict<seq<string>>) returns (documents: seq<Document>)
    ensures documents == Documents(results)
  {
    documents := [];
    for i := 0 to |results|
      invariant documents == Documents(results[..i])
    {
      var (subtopicName, urls) := results[i];
      ghost var before := documents;
      for j := 0 to |urls|
        invariant documents == before + DocumentsFor(subtopicName, urls[..j])
      {
        assert urls[..j + 1][..j] == urls[..j];
        documents := documents + [PlaceholderDocument(urls[j], subtopicName)];
      }
      assert urls[..|urls|] == urls;
      assert results[..i + 1][..i] == results[..i];
    }
    assert results[..|results|] == results;
  }

  /**
   * `fetch_pages`: replaces `documents`. A missing `_search_results` reads as `{}`; a
   * present None makes `.items()` raise, and the state is left as it was.
   */
  method FetchPages(st: ReviewState) returns (raised: bool)
    modifies st`documents
    ensures raised <==> st.searchResults == Null
    ensures raised ==> st.documents == old(st.documents)
    ensures st.searchResults == Absent ==> st.documents == []
    ensures st.searchResults.Present? ==> st.documents == Documents(st.searchResults.value)
  {
    match st.searchResults {
      case Null =>
        raised := true;
      case Absent =>
        raised := false;
        st.documents := [];
      case Present(results) =>
        raised := false;
        var documents := CollectDocuments(results);
        st.documents := documents;
    }
  }
}
