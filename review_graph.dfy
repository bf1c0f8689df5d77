/**
 * main.py: the workflow graph (seven stages in a chain) and the run that composes the
 * stages from the initial state.
 */
module ReviewGraph {
  import opened Wrappers
  import opened Lists
  import opened Dicts
  import opened State
  import Planner
  import Searcher
  import Fetcher
  import ChunkEmbed
  import Retriever
  import Summarizer
  import Synthesizer

  /** LangGraph's END marker. */
  const End := "__end__"

  /** The node names `create_review_graph` registers, in registration order. */
  const Stages := ["plan_subtopics", "search_web", "fetch_pages", "chunk_embed",
                   "retrieve_context", "summarize_subtopics", "synthesize_review"]

  /** The graph builder: registered nodes, edges and entry point, filled in step by step. */
  class Workflow {
    var nodes: seq<string>
    var edges: seq<(string, string)>
    var entry: Option<string>

    constructor ()
      ensures nodes == [] && edges == [] && entry == None
    {
      nodes, edges, entry := [], [], None;
    }

    method AddNode(name: string)
      modifies this`nodes
      ensures nodes == old(nodes) + [name]
    {
      nodes := nodes + [name];
    }

    method AddEdge(source: string, target: string)
      modifies this`edges
      ensures edges == old(edges) + [(source, target)]
    {
      edges := edges + [(source, target)];
    }

    method SetEntryPoint(name: string)
      modifies this`entry
      ensures entry == Some(name)
    {
      entry := Some(name);
    }
  }

  /** Each stage to the next, the last one to END. */
  function Chain(stages: seq<string>): (edges: seq<(string, string)>)
    requires |stages| > 0
    ensures |edges| == |stages|
    ensures forall i :: 0 <= i < |stages| ==> edges[i].0 == stages[i]
    ensures forall i :: 0 <= i < |stages| - 1 ==> edges[i].1 == stages[i + 1]
    ensures edges[|stages| - 1].1 == End
  {
    var n := |stages| - 1;
    seq(n, i requires 0 <= i < n => (stages[i], stages[i + 1])) + [(stages[n], End)]
  }

  /** `create_review_graph`, without compilation: the seven stages, chained, entered at the first. */
  method CreateReviewGraph() returns (workflow: Workflow)
    ensures fresh(workflow)
    ensures workflow.nodes == Stages
    ensures workflow.entry == Some(Stages[0])
    ensures workflow.edges == Chain(Stages)
  {
    workflow := new Workflow();
    AddStages(workflow);
    ConnectStages(workflow);
  }

  /** Registers the seven stages, in order. */
  method AddStages(workflow: Workflow)
    modifies workflow`nodes
    ensures workflow.nodes == old(workflow.nodes) + Stages
  {
    var stages := Stages;
    workflow.AddNode(stages[0]);
    workflow.AddNode(stages[1]);
    workflow.AddNode(stages[2]);
    workflow.AddNode(stages[3]);
    workflow.AddNode(stages[4]);
    workflow.AddNode(stages[5]);
    workflow.AddNode(stages[6]);
    assert workflow.nodes == old(workflow.nodes) + stages;
  }

  /** Enters at the first stage and chains each stage to the next, the last to END. */
  method ConnectStages(workflow: Workflow)
    modifies workflow`entry, workflow`edges
    ensures workflow.entry == Some(Stages[0])
    ensures workflow.edges == old(workflow.edges) + Chain(Stages)
  {
    var stages := Stages;
    workflow.SetEntryPoint(stages[0]);
    workflow.AddEdge(stages[0], stages[1]);
    workflow.AddEdge(stages[1], stages[2]);
    workflow.AddEdge(stages[2], stages[3]);
    workflow.AddEdge(stages[3], stages[4]);
    workflow.AddEdge(stages[4], stages[5]);
    workflow.AddEdge(stages[5], stages[6]);
    workflow.AddEdge(stages[6], End);
    ChainOfSeven(stages);
    SevenSnocs(old(workflow.edges), (stages[0], stages[1]), (stages[1], stages[2]), (stages[2], stages[3]),
               (stages[3], stages[4]), (stages[4], stages[5]), (stages[5], stages[6]), (stages[6], End));
  }

  /** Seven appends of one element each append the seven in order. */
  lemma {:induction false} SevenSnocs<T>(s: seq<T>, a: T, b: T, c: T, d: T, e: T, f: T, g: T)
    ensures s + [a] + [b] + [c] + [d] + [e] + [f] + [g] == s + [a, b, c, d, e, f, g]
  {
  }

  lemma {:induction false} ChainOfSeven(stages: seq<string>)
    requires |stages| == 7
    ensures Chain(stages) == [(stages[0], stages[1]), (stages[1], stages[2]), (stages[2], stages[3]), (stages[3], stages[4]),
                              (stages[4], stages[5]), (stages[5], stages[6]), (stages[6], End)]
  {
  }

  /** The targets of the edges leaving a node, in edge order. */
  function Successors(edges: seq<(string, string)>, node: string): seq<string>
  {
    if edges == [] then []
    else
      var n := |edges| - 1;
      Successors(edges[..n], node) + (if edges[n].0 == node then [edges[n].1] else [])
  }

  /** A node no edge leaves has no successor. */
  lemma {:induction false} NoSuccessor(edges: seq<(string, string)>, node: string)
    requires forall j :: 0 <= j < |edges| ==> edges[j].0 != node
    ensures Successors(edges, node) == []
  {
    if edges != [] {
      NoSuccessor(edges[..|edges| - 1], node);
    }
  }

  /** A node exactly one edge leaves has exactly that edge's target as successor. */
  lemma {:induction false} OneSuccessor(edges: seq<(string, string)>, node: string, k: nat)
    requires k < |edges| && edges[k].0 == node
    requires forall j :: 0 <= j < |edges| && j != k ==> edges[j].0 != node
    ensures Successors(edges, node) == [edges[k].1]
  {
    var n := |edges| - 1;
    if k == n {
      NoSuccessor(edges[..n], node);
    } else {
      OneSuccessor(edges[..n], node, k);
    }
  }

  /** Where execution goes after a node: the target of its edge, when exactly one edge leaves it. */
  function Next(edges: seq<(string, string)>, node: string): Option<string>
  {
    var targets := Successors(edges, node);
    if |targets| == 1 then Some(targets[0]) else None
  }

  /**
   * The stages visited from a node by following single outgoing edges, up to `fuel` steps;
   * it stops at END, at a node without exactly one successor, or when fuel runs out.
   */
  function Walk(edges: seq<(string, string)>, node: string, fuel: nat): seq<string>
    decreases fuel
  {
    if node == End then [End]
    else if fuel == 0 then [node]
    else
      match Next(edges, node)
      case Some(target) => [node] + Walk(edges, target, fuel - 1)
      case None => [node]
  }

  /** In a chain of distinct stages, every stage has one successor and END none: no branch. */
  lemma {:induction false} ChainSuccessor(stages: seq<string>, k: nat)
    requires k < |stages|
    requires forall i, j :: 0 <= i < j < |stages| ==> stages[i] != stages[j]
    ensures Successors(Chain(stages), stages[k]) == [if k + 1 < |stages| then stages[k + 1] else End]
    ensures Next(Chain(stages), stages[k]) == Some(if k + 1 < |stages| then stages[k + 1] else End)
  {
    OneSuccessor(Chain(stages), stages[k], k);
  }

  /** One step of a walk: a node with a single way out hands over to its target. */
  lemma {:induction false} WalkStep(edges: seq<(string, string)>, node: string, target: string, fuel: nat)
    requires node != End && fuel > 0 && Next(edges, node) == Some(target)
    ensures Walk(edges, node, fuel) == [node] + Walk(edges, target, fuel - 1)
  {
  }

  /** Stage i hands over to the next stage, the last one to END. */
  predicate HandsOver(edges: seq<(string, string)>, stages: seq<string>, i: nat)
    requires i < |stages|
  {
    stages[i] != End && Next(edges, stages[i]) == Some(if i + 1 < |stages| then stages[i + 1] else End)
  }

  /** Walking edges on which the stages hand over, from stage k, visits the rest in order, then END. */
  lemma {:induction false} WalkFrom(edges: seq<(string, string)>, stages: seq<string>, k: nat)
    requires k < |stages|
    requires forall i :: k <= i < |stages| ==> HandsOver(edges, stages, i)
    ensures Walk(edges, stages[k], |stages| - k) == stages[k..] + [End]
    decreases |stages| - k
  {
    var fuel := |stages| - k;
    assert HandsOver(edges, stages, k);
    if k + 1 < |stages| {
      WalkStep(edges, stages[k], stages[k + 1], fuel);
      WalkFrom(edges, stages, k + 1);
      assert stages[k..] == [stages[k]] + stages[k + 1..];
    } else {
      WalkStep(edges, stages[k], End, fuel);
      assert stages[k..] == [stages[k]];
    }
  }

  /** Walking a chain of distinct stages from its first stage visits them all in order, then END. */
  lemma {:induction false} ChainWalk(stages: seq<string>)
    requires |stages| > 0
    requires forall i, j :: 0 <= i < j < |stages| ==> stages[i] != stages[j]
    requires End !in stages
    ensures Walk(Chain(stages), stages[0], |stages|) == stages + [End]
  {
    forall i | 0 <= i < |stages| ensures HandsOver(Chain(stages), stages, i) {
      ChainSuccessor(stages, i);
      assert stages[i] in stages;
    }
    WalkFrom(Chain(stages), stages, 0);
    assert stages[0..] == stages;
  }



  /**
   * The graph built by `create_review_graph` runs plan, search, fetch, chunk/embed,
   * retrieve, summarize and synthesize once each, in that order, and then ends.
   */
  lemma {:induction false} ReviewGraphOrder()
    ensures Walk(Chain(Stages), Stages[0], |Stages|) == Stages + [End]
  {
    ChainWalk(Stages);
  }

  /** The values the stages compute, in order, from a given subtopic list on. */
  datatype Outcome = Outcome(
    subtopics: seq<Subtopic>,
    searchResults: Dict<seq<string>>,
    documents: seq<Document>,
    chunks: seq<Chunk>,
    retrieved: Dict<seq<Chunk>>,
    summaries: seq<Summary>,
    finalReview: string)

  /** Search through synthesis on given subtopics, with the store the chunker leaves (none). */
  function Downstream(topic: string, subtopics: seq<Subtopic>, similaritySearch: Retriever.SimilaritySearch): Outcome
  {
    var results := Searcher.SearchResults(subtopics, Searcher.DispatchSearch);
    var documents := Fetcher.Documents(results);
    var chunks := ChunkEmbed.Chunks(documents);
    var retrieved := Retriever.RetrievedChunks(subtopics, chunks, None, similaritySearch);
    var summaries := Summarizer.Summaries(subtopics, retrieved);
    Outcome(subtopics, results, documents, chunks, retrieved, summaries, Synthesizer.Review(topic, summaries))
  }

  /** The whole composed run for a topic. */
  function Composed(topic: string, similaritySearch: Retriever.SimilaritySearch): Outcome
  {
    Downstream(topic, Planner.PlaceholderSubtopics(topic), similaritySearch)
  }

  /**
   * The state holds, from `searchResults` on, what the stages compute in order from its
   * topic and subtopics, with the chunker's store (none) handed to the retriever.
   */
  predicate StagesRan(st: ReviewState, similaritySearch: Retriever.SimilaritySearch)
    reads st
  {
    && st.searchResults == Present(Searcher.SearchResults(st.subtopics, Searcher.DispatchSearch))
    && st.documents == Fetcher.Documents(st.searchResults.value)
    && st.chunks == ChunkEmbed.Chunks(st.documents) && st.vectorStore == None
    && st.retrievedChunks == Present(Retriever.RetrievedChunks(st.subtopics, st.chunks, None, similaritySearch))
    && st.summaries == Summarizer.Summaries(st.subtopics, st.retrievedChunks.value)
    && st.finalReview == Some(Synthesizer.Review(st.topic, st.summaries))
  }

  /**
   * `run_literature_review`: the initial state, then the seven stages in graph order. The
   * plan is the placeholder plan for the topic, every later field is what its stage computes
   * from the fields the earlier stages wrote. The chunker always leaves no vector store, so
   * the retriever takes its filter path and `similaritySearch` is never consulted in a run.
   */
  method RunLiteratureReview(topic: string, similaritySearch: Retriever.SimilaritySearch) returns (st: ReviewState)
    ensures fresh(st)
    ensures st.topic == topic
    ensures st.subtopics == Planner.PlaceholderSubtopics(topic)
    ensures StagesRan(st, similaritySearch)
  {
    st := new ReviewState(topic);
    Planner.PlanSubtopics(st);
    RunStages(st, similaritySearch);
  }

  /**
   * A state the stages ran on holds the values of the composed stages: with the placeholder
   * plan, the run's fields are those of `Composed`, to which the counting lemmas apply.
   */
  lemma {:induction false} RanIsComposed(st: ReviewState, similaritySearch: Retriever.SimilaritySearch)
    requires st.subtopics == Planner.PlaceholderSubtopics(st.topic)
    requires StagesRan(st, similaritySearch)
    ensures Composed(st.topic, similaritySearch)
            == Outcome(st.subtopics, st.searchResults.value, st.documents, st.chunks,
                       st.retrievedChunks.value, st.summaries, st.finalReview.value)
  {
  }

  /**
   * The six stages after planning, in graph order. `invoke` runs them as one sequence; the
   * grouping into `Gather`, `Report` and `Condense` below is the model's own, so that each
   * method proves a few stages at a time, and has no counterpart in main.py.
   */
  method RunStages(st: ReviewState, similaritySearch: Retriever.SimilaritySearch)
    modifies st`searchResults, st`documents, st`chunks, st`vectorStore, st`retrievedChunks, st`summaries, st`finalReview
    ensures StagesRan(st, similaritySearch)
  {
    Gather(st);
    Report(st, similaritySearch);
  }

  /** Search, fetch, and chunk/embed, in that order. */
  method Gather(st: ReviewState)
    modifies st`searchResults, st`documents, st`chunks, st`vectorStore
    ensures st.searchResults == Present(Searcher.SearchResults(st.subtopics, Searcher.DispatchSearch))
    ensures st.documents == Fetcher.Documents(st.searchResults.value)
    ensures st.chunks == ChunkEmbed.Chunks(st.documents) && st.vectorStore == None
  {
    Searcher.SearchWeb(st);
    var fetchRaised := Fetcher.FetchPages(st);
    ChunkEmbed.ChunkAndEmbed(st);
  }

  /** Retrieve, summarize and synthesize, in that order. */
  method Report(st: ReviewState, similaritySearch: Retriever.SimilaritySearch)
    modifies st`retrievedChunks, st`summaries, st`finalReview
    ensures st.retrievedChunks == Present(Retriever.RetrievedChunks(st.subtopics, st.chunks, st.vectorStore, similaritySearch))
    ensures st.summaries == Summarizer.Summaries(st.subtopics, st.retrievedChunks.value)
    ensures st.finalReview == Some(Synthesizer.Review(st.topic, st.summaries))
  {
    Condense(st, similaritySearch);
    Synthesizer.SynthesizeReview(st);
  }

  /** Retrieve and summarize, in that order. */
  method Condense(st: ReviewState, similaritySearch: Retriever.SimilaritySearch)
    modifies st`retrievedChunks, st`summaries
    ensures st.retrievedChunks == Present(Retriever.RetrievedChunks(st.subtopics, st.chunks, st.vectorStore, similaritySearch))
    ensures st.summaries == Summarizer.Summaries(st.subtopics, st.retrievedChunks.value)
  {
    Retriever.RetrieveContext(st, similaritySearch);
    var summarizeRaised := Summarizer.SummarizeSubtopics(st);
  }

  /** The subtopic names, in order. */
  function Names(subtopics: seq<Subtopic>): (names: seq<string>)
    ensures |names| == |subtopics| && forall i :: 0 <= i < |subtopics| ==> names[i] == subtopics[i].name
  {
    seq(|subtopics|, i requires 0 <= i < |subtopics| => subtopics[i].name)
  }

  /** One entry per subtopic, keyed by name, holding the URLs `urlsOf` gives for that name. */
  function Entries(subtopics: seq<Subtopic>, urlsOf: string -> seq<string>): (entries: Dict<seq<string>>)
    ensures |entries| == |subtopics|
  {
    seq(|subtopics|, i requires 0 <= i < |subtopics| => (subtopics[i].name, urlsOf(subtopics[i].name)))
  }

  /** The shipped search gives every subtopic its placeholder URLs. */
  lemma {:induction false} ShippedEntries(subtopics: seq<Subtopic>)
    ensures Searcher.SearchEntries(subtopics, Searcher.DispatchSearch) == Entries(subtopics, Searcher.PlaceholderUrls)
  {
    forall i | 0 <= i < |subtopics|
      ensures Searcher.SearchEntries(subtopics, Searcher.DispatchSearch)[i] == Entries(subtopics, Searcher.PlaceholderUrls)[i]
    {
      var name := subtopics[i].name;
      Searcher.DispatchSearchFails(subtopics[i].searchQuery);
      assert Searcher.SearchEntries(subtopics, Searcher.DispatchSearch)[i]
          == (name, Searcher.UrlsFor(Searcher.DispatchSearch(subtopics[i].searchQuery), name));
      assert Entries(subtopics, Searcher.PlaceholderUrls)[i] == (name, Searcher.PlaceholderUrls(name));
    }
  }

  /** The chunks of one subtopic's documents all belong to it. */
  lemma {:induction false} BlockOwned(name: string, urls: seq<string>)
    ensures var block := ChunkEmbed.Chunks(Fetcher.DocumentsFor(name, urls));
            |block| == |urls| && forall i :: 0 <= i < |block| ==> block[i].metadata.subtopic == name
  {
    var docs := Fetcher.DocumentsFor(name, urls);
    forall i | 0 <= i < |docs| ensures docs[i].subtopic == name {
      assert docs[i] == Fetcher.PlaceholderDocument(urls[i], name);
    }
  }

  /** Entries of a longer list: those of the shorter one, then the new subtopic's. */
  lemma {:induction false} EntriesSnoc(subtopics: seq<Subtopic>, urlsOf: string -> seq<string>)
    requires |subtopics| > 0
    ensures var n := |subtopics| - 1;
            Fetcher.Documents(Entries(subtopics, urlsOf))
            == Fetcher.Documents(Entries(subtopics[..n], urlsOf))
               + Fetcher.DocumentsFor(subtopics[n].name, urlsOf(subtopics[n].name))
  {
    var n := |subtopics| - 1;
    var entries := Entries(subtopics, urlsOf);
    assert entries[..n] == Entries(subtopics[..n], urlsOf);
  }

  /** The chunks of a longer entry list: those of the shorter one, then the new subtopic's. */
  lemma {:induction false} EntriesChunksSnoc(subtopics: seq<Subtopic>, urlsOf: string -> seq<string>)
    requires |subtopics| > 0
    ensures var n := |subtopics| - 1;
            ChunkEmbed.Chunks(Fetcher.Documents(Entries(subtopics, urlsOf)))
            == ChunkEmbed.Chunks(Fetcher.Documents(Entries(subtopics[..n], urlsOf)))
               + ChunkEmbed.Chunks(Fetcher.DocumentsFor(subtopics[n].name, urlsOf(subtopics[n].name)))
  {
    var n := |subtopics| - 1;
    EntriesSnoc(subtopics, urlsOf);
    ChunkEmbed.ChunksAppend(Fetcher.Documents(Entries(subtopics[..n], urlsOf)),
                            Fetcher.DocumentsFor(subtopics[n].name, urlsOf(subtopics[n].name)));
  }

  /** Filtering one subtopic's chunks by a name keeps them all for its own name and none otherwise. */
  lemma {:induction false} FilterBlock(name: string, owner: string, urls: seq<string>)
    ensures var block := ChunkEmbed.Chunks(Fetcher.DocumentsFor(owner, urls));
            Filter(block, Retriever.OfSubtopic(name)) == if name == owner then block else []
  {
    var block := ChunkEmbed.Chunks(Fetcher.DocumentsFor(owner, urls));
    BlockOwned(owner, urls);
    if name == owner {
      FilterKeepsAll(block, Retriever.OfSubtopic(name));
    } else {
      FilterDropsAll(block, Retriever.OfSubtopic(name));
    }
  }

  /** The names of a longer list of distinct subtopics: the earlier names, then a new one. */
  lemma {:induction false} NamesSnoc(subtopics: seq<Subtopic>)
    requires |subtopics| > 0
    requires forall i, j :: 0 <= i < j < |subtopics| ==> subtopics[i].name != subtopics[j].name
    ensures var n := |subtopics| - 1;
            Names(subtopics) == Names(subtopics[..n]) + [subtopics[n].name]
            && subtopics[n].name !in Names(subtopics[..n])
  {
    var n := |subtopics| - 1;
    assert Names(subtopics) == Names(subtopics[..n]) + [subtopics[n].name];
    forall i | 0 <= i < n ensures Names(subtopics[..n])[i] != subtopics[n].name {
      assert subtopics[..n][i] == subtopics[i];
    }
  }

  /**
   * Filtering the chunks of the documents of the entries by a name yields exactly the
   * chunks of that subtopic's own documents, or nothing for a name that is no subtopic's.
   */
  lemma {:induction false} EntriesChunks(subtopics: seq<Subtopic>, urlsOf: string -> seq<string>, name: string)
    requires forall i, j :: 0 <= i < j < |subtopics| ==> subtopics[i].name != subtopics[j].name
    ensures Filter(ChunkEmbed.Chunks(Fetcher.Documents(Entries(subtopics, urlsOf))), Retriever.OfSubtopic(name))
            == if name in Names(subtopics) then ChunkEmbed.Chunks(Fetcher.DocumentsFor(name, urlsOf(name))) else []
  {
    if subtopics == [] {
      assert Entries(subtopics, urlsOf) == [];
    } else {
      var n := |subtopics| - 1;
      var prev, owner := subtopics[..n], subtopics[n].name;
      var before := ChunkEmbed.Chunks(Fetcher.Documents(Entries(prev, urlsOf)));
      var block := ChunkEmbed.Chunks(Fetcher.DocumentsFor(owner, urlsOf(owner)));
      EntriesChunks(prev, urlsOf, name);
      EntriesChunksSnoc(subtopics, urlsOf);
      FilterAppend(before, block, Retriever.OfSubtopic(name));
      FilterBlock(name, owner, urlsOf(owner));
      NamesSnoc(subtopics);
      SnocCases(Names(prev), owner, name, Filter(before, Retriever.OfSubtopic(name)),
                Filter(block, Retriever.OfSubtopic(name)), ChunkEmbed.Chunks(Fetcher.DocumentsFor(name, urlsOf(name))));
    }
  }

  /**
   * The case split behind `EntriesChunks`: when what the earlier entries contribute for a
   * name is `own` exactly if it is among their names, and what a new, fresh name's block
   * contributes is `own` exactly if it is that name, together they contribute `own` exactly
   * if the name is among all the names.
   */
  lemma {:induction false} SnocCases<T>(names: seq<string>, owner: string, name: string, earlier: seq<T>, added: seq<T>, own: seq<T>)
    requires owner !in names
    requires earlier == if name in names then own else []
    requires added == if name == owner then own else []
    ensures earlier + added == if name in names + [owner] then own else []
  {
    if name == owner {
      assert earlier + added == [] + own;
    } else if name in names {
      assert earlier + added == own + [];
    } else {
      assert name !in names + [owner];
    }
  }

  /** With three URLs per subtopic there are three documents per subtopic. */
  lemma {:induction false} EntriesDocumentCount(subtopics: seq<Subtopic>, urlsOf: string -> seq<string>)
    requires forall i :: 0 <= i < |subtopics| ==> |urlsOf(subtopics[i].name)| == 3
    ensures |Fetcher.Documents(Entries(subtopics, urlsOf))| == 3 * |subtopics|
  {
    if subtopics != [] {
      EntriesSnoc(subtopics, urlsOf);
      EntriesDocumentCount(subtopics[..|subtopics| - 1], urlsOf);
    }
  }

  /**
   * For any distinct subtopics the shipped stages give three documents and three chunks per
   * subtopic, three retrieved chunks for each subtopic, and one summary per subtopic citing
   * three sources.
   */
  lemma {:induction false} ShippedCounts(topic: string, subtopics: seq<Subtopic>, similaritySearch: Retriever.SimilaritySearch)
    requires forall i, j :: 0 <= i < j < |subtopics| ==> subtopics[i].name != subtopics[j].name
    ensures var o := Downstream(topic, subtopics, similaritySearch);
            && |o.documents| == 3 * |subtopics|
            && |o.chunks| == 3 * |subtopics|
            && (forall i :: 0 <= i < |subtopics| ==> |Summarizer.ChunksFor(o.retrieved, subtopics[i].name)| == 3)
            && |o.summaries| == |subtopics|
            && (forall i :: 0 <= i < |subtopics| ==> |o.summaries[i].sources| == 3)
  {
    var o := Downstream(topic, subtopics, similaritySearch);
    Searcher.SearchResultsInOrder(subtopics, Searcher.DispatchSearch);
    ShippedEntries(subtopics);
    EntriesDocumentCount(subtopics, Searcher.PlaceholderUrls);
    forall i | 0 <= i < |subtopics|
      ensures |Summarizer.ChunksFor(o.retrieved, subtopics[i].name)| == 3
    {
      var name := subtopics[i].name;
      EntriesChunks(subtopics, Searcher.PlaceholderUrls, name);
      assert name in Names(subtopics) by { assert Names(subtopics)[i] == name; }
      BlockOwned(name, Searcher.PlaceholderUrls(name));
      Retriever.RetrievedKeys(subtopics, o.chunks, None, similaritySearch, name);
      Retriever.NoLeakage(subtopics, o.chunks, None, similaritySearch, name);
    }
    forall i | 0 <= i < |subtopics| ensures |o.summaries[i].sources| == 3 {
      assert o.summaries[i] == Summarizer.SummaryFor(subtopics[i], o.retrieved);
    }
  }

  /**
   * For any topic the composed run yields 3 subtopics, 9 documents, 9 chunks, 3 chunks
   * retrieved per subtopic and 3 summaries each citing 3 sources.
   */
  lemma {:induction false} PipelineShape(topic: string, similaritySearch: Retriever.SimilaritySearch)
    ensures var o := Composed(topic, similaritySearch);
            && |o.subtopics| == 3
            && |o.documents| == 9
            && |o.chunks| == 9
            && (forall i :: 0 <= i < 3 ==> |Summarizer.ChunksFor(o.retrieved, o.subtopics[i].name)| == 3)
            && |o.summaries| == 3
            && (forall i :: 0 <= i < 3 ==> |o.summaries[i].sources| == 3)
  {
    ShippedCounts(topic, Planner.PlaceholderSubtopics(topic), similaritySearch);
  }
}
