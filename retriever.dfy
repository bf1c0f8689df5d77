/** graph/nodes/retriever.py: chunks per subtopic, by semantic search or by metadata filter. */
module Retriever {
  import opened Wrappers
  import opened Lists
  import opened Dicts
  import opened State

  const RetrieveLimit: nat := 10

  /**
   * `vector_store.similarity_search(query, k)`, already wrapped into chunks; None when the
   * call raised. The store itself is a collaborator.
   */
  type SimilaritySearch = (VectorIndex, string, nat) -> Option<seq<Chunk>>

  /** `chunk["metadata"]["subtopic"] == name`. */
  function OfSubtopic(name: string): Chunk -> bool
  {
    (c: Chunk) => c.metadata.subtopic == name
  }

  /**
   * The filter path: the chunks of the named subtopic, in chunk order, cut at ten: the
   * first min(10, matches) of them. Every kept chunk belongs to the subtopic, and with ten
   * or fewer matches none is missing.
   */
  function FilteredChunks(chunks: seq<Chunk>, name: string): (r: seq<Chunk>)
    ensures |r| <= RetrieveLimit
    ensures forall i :: 0 <= i < |r| ==> r[i].metadata.subtopic == name
    ensures r <= Filter(chunks, OfSubtopic(name))
    ensures |r| == if |Filter(chunks, OfSubtopic(name))| < RetrieveLimit then |Filter(chunks, OfSubtopic(name))| else RetrieveLimit
    ensures |Filter(chunks, OfSubtopic(name))| <= RetrieveLimit ==>
              forall c :: c in chunks && c.metadata.subtopic == name ==> c in r
  {
    var relevant := Filter(chunks, OfSubtopic(name));
    forall c | c in chunks && c.metadata.subtopic == name ensures c in relevant {
      FilterMembers(chunks, OfSubtopic(name), c);
    }
    Take(relevant, RetrieveLimit)
  }

  /** What one subtopic receives: semantic hits for its query, or the filter on any failure. */
  function RetrievedFor(subtopic: Subtopic, chunks: seq<Chunk>, store: Option<VectorIndex>,
                        similaritySearch: SimilaritySearch): (r: seq<Chunk>)
    ensures store.None? ==> r == FilteredChunks(chunks, subtopic.name)
    ensures store.None? ==> |r| <= RetrieveLimit && forall i :: 0 <= i < |r| ==> r[i].metadata.subtopic == subtopic.name
    ensures store.Some? ==>
              var outcome := similaritySearch(store.value, subtopic.searchQuery, RetrieveLimit);
              && (outcome.Some? ==> r == outcome.value)
              && (outcome.None? ==> r == FilteredChunks(chunks, subtopic.name))
  {
    match store
    case None => FilteredChunks(chunks, subtopic.name)
    case Some(index) =>
      match similaritySearch(index, subtopic.searchQuery, RetrieveLimit)
      case Some(hits) => hits
      case None => FilteredChunks(chunks, subtopic.name)
  }

  /** The assignments the loop makes, one per subtopic. */
  function RetrieveEntries(subtopics: seq<Subtopic>, chunks: seq<Chunk>, store: Option<VectorIndex>,
                           similaritySearch: SimilaritySearch): (entries: seq<(string, seq<Chunk>)>)
    ensures |entries| == |subtopics|
    ensures forall i :: 0 <= i < |subtopics| ==> entries[i].0 == subtopics[i].name
  {
    seq(|subtopics|, i requires 0 <= i < |subtopics| =>
      (subtopics[i].name, RetrievedFor(subtopics[i], chunks, store, similaritySearch)))
  }

  /** The `retrieved_chunks` dict the node stores. */
  function RetrievedChunks(subtopics: seq<Subtopic>, chunks: seq<Chunk>, store: Option<VectorIndex>,
                           similaritySearch: SimilaritySearch): (retrieved: Dict<seq<Chunk>>)
    ensures UniqueKeys(retrieved)
  {
    Assigned(RetrieveEntries(subtopics, chunks, store, similaritySearch))
  }

  /** Every subtopic name receives an entry, and no other key appears. */
  lemma {:induction false} RetrievedKeys(subtopics: seq<Subtopic>, chunks: seq<Chunk>, store: Option<VectorIndex>,
                      similaritySearch: SimilaritySearch, name: string)
    ensures name in Keys(RetrievedChunks(subtopics, chunks, store, similaritySearch))
            <==> exists i :: 0 <= i < |subtopics| && subtopics[i].name == name
  {
    var entries := RetrieveEntries(subtopics, chunks, store, similaritySearch);
    AssignedKeys(entries, name);
    if name in Keys(entries) {
      var i :| 0 <= i < |entries| && Keys(entries)[i] == name;
      assert subtopics[i].name == name;
    }
  }

  /**
   * On the filter paths (no store, or every semantic query raised) there is no
   * cross-subtopic leakage: each entry holds at most ten chunks, all of its own subtopic.
   */
  lemma {:induction false} NoLeakage(subtopics: seq<Subtopic>, chunks: seq<Chunk>, store: Option<VectorIndex>,
                                     similaritySearch: SimilaritySearch, name: string)
    requires store.Some? ==> forall i :: 0 <= i < |subtopics| ==>
               similaritySearch(store.value, subtopics[i].searchQuery, RetrieveLimit).None?
    ensures Get(RetrievedChunks(subtopics, chunks, store, similaritySearch), name).Some? ==>
              Get(RetrievedChunks(subtopics, chunks, store, similaritySearch), name).value
                == FilteredChunks(chunks, name)
  {
    var entries := RetrieveEntries(subtopics, chunks, store, similaritySearch);
    AssignedGet(entries, name);
    LastValueFiltered(entries, chunks, name);
  }

  lemma {:induction false} LastValueFiltered(entries: seq<(string, seq<Chunk>)>, chunks: seq<Chunk>, name: string)
    requires forall j :: 0 <= j < |entries| ==> entries[j].1 == FilteredChunks(chunks, entries[j].0)
    ensures LastValue(entries, name).Some? ==> LastValue(entries, name).value == FilteredChunks(chunks, name)
  {
    if entries != [] {
      var n := |entries| - 1;
      LastValueFiltered(entries[..n], chunks, name);
    }
  }

  /** With distinct names, entry i is subtopic i's: its semantic hits, or its filter fallback. */
  lemma {:induction false} RetrievedInOrder(subtopics: seq<Subtopic>, chunks: seq<Chunk>, store: Option<VectorIndex>,
                         similaritySearch: SimilaritySearch)
    requires forall i, j :: 0 <= i < j < |subtopics| ==> subtopics[i].name != subtopics[j].name
    ensures RetrievedChunks(subtopics, chunks, store, similaritySearch)
              == RetrieveEntries(subtopics, chunks, store, similaritySearch)
  {
    AssignedDistinct(RetrieveEntries(subtopics, chunks, store, similaritySearch));
  }

  /**
   * With a store, each subtopic is on its own: it gets its semantic hits, or the filter for
   * its own name when its query raised, whatever happened to the other subtopics.
   */
  lemma {:induction false} SemanticFallback(subtopics: seq<Subtopic>, chunks: seq<Chunk>, index: VectorIndex,
                         similaritySearch: SimilaritySearch, i: nat)
    requires forall i, j :: 0 <= i < j < |subtopics| ==> subtopics[i].name != subtopics[j].name
    requires i < |subtopics|
    ensures var outcome := similaritySearch(index, subtopics[i].searchQuery, RetrieveLimit);
            var got := Get(RetrievedChunks(subtopics, chunks, Some(index), similaritySearch), subtopics[i].name);
            && (outcome.Some? ==> got == Some(outcome.value))
            && (outcome.None? ==> got == Some(FilteredChunks(chunks, subtopics[i].name)))
  {
    var entries := RetrieveEntries(subtopics, chunks, Some(index), similaritySearch);
    RetrievedInOrder(subtopics, chunks, Some(index), similaritySearch);
    assert UniqueKeys(entries);
    assert entries[i] == (subtopics[i].name, RetrievedFor(subtopics[i], chunks, Some(index), similaritySearch));
    assert Get(entries, subtopics[i].name) == Some(entries[i].1);
  }

  /** The loops of `retrieve_context`: the filter loop without a store, the semantic loop with one. */
  method CollectRetrieved(subtopics: seq<Subtopic>, chunks: seq<Chunk>, store: Option<VectorIndex>,
                          similaritySearch: SimilaritySearch)
    returns (retrieved: Dict<seq<Chunk>>)
    ensures retrieved == RetrievedChunks(subtopics, chunks, store, similaritySearch)
  {
    retrieved := [];
    if store.None? {
      for i := 0 to |subtopics|
        invariant retrieved == RetrievedChunks(subtopics[..i], chunks, store, similaritySearch)
      {
        var subtopic := subtopics[i];
        var relevant := Filter(chunks, OfSubtopic(subtopic.name));
        assert Take(relevant, RetrieveLimit) == RetrievedFor(subtopic, chunks, store, similaritySearch);
        RetrievedStep(subtopics, chunks, store, similaritySearch, i);
        retrieved := Put(retrieved, subtopic.name, Take(relevant, RetrieveLimit));
      }
    } else {
      var index := store.value;
      for i := 0 to |subtopics|
        invariant retrieved == RetrievedChunks(subtopics[..i], chunks, store, similaritySearch)
      {
        var subtopic := subtopics[i];
        var relevant: seq<Chunk>;
        match similaritySearch(index, subtopic.searchQuery, RetrieveLimit) {
          case Some(hits) =>
            relevant := hits;
          case None =>
            relevant := Take(Filter(chunks, OfSubtopic(subtopic.name)), RetrieveLimit);
        }
        assert relevant == RetrievedFor(subtopic, chunks, store, similaritySearch);
        RetrievedStep(subtopics, chunks, store, similaritySearch, i);
        retrieved := Put(retrieved, subtopic.name, relevant);
      }
    }
    assert subtopics[..|subtopics|] == subtopics;
  }

  /** One more subtopic assigns its entry on top of the dict so far. */
  lemma {:induction false} RetrievedStep(subtopics: seq<Subtopic>, chunks: seq<Chunk>, store: Option<VectorIndex>,
                                         similaritySearch: SimilaritySearch, i: nat)
    requires i < |subtopics|
    ensures RetrievedChunks(subtopics[..i + 1], chunks, store, similaritySearch)
            == Put(RetrievedChunks(subtopics[..i], chunks, store, similaritySearch),
                   subtopics[i].name, RetrievedFor(subtopics[i], chunks, store, similaritySearch))
  {
    var entries := RetrieveEntries(subtopics[..i + 1], chunks, store, similaritySearch);
    assert entries[..i] == RetrieveEntries(subtopics[..i], chunks, store, similaritySearch);
    assert entries[i] == (subtopics[i].name, RetrievedFor(subtopics[i], chunks, store, similaritySearch));
  }

  /** `retrieve_context`: writes `_retrieved_chunks`; `chunks` is read, not changed. */
  method RetrieveContext(st: ReviewState, similaritySearch: SimilaritySearch)
    modifies st`retrievedChunks
    ensures st.retrievedChunks == Present(RetrievedChunks(st.subtopics, st.chunks, st.vectorStore, similaritySearch))
  {
    var retrieved := CollectRetrieved(st.subtopics, st.chunks, st.vectorStore, similaritySearch);
    st.retrievedChunks := Present(retrieved);
  }
}
