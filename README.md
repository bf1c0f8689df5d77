# Literature review agent: a Dafny model of its workflow

The system plans subtopics for a research topic, searches the web for each one and
fetches the pages. It cuts the pages into chunks and retrieves the chunks relevant to
each subtopic. It summarises every subtopic and assembles a Markdown literature review.

`main.py` wires seven stages into a LangGraph chain that runs over one shared state
(`graph/state.py`):

plan_subtopics → search_web → fetch_pages → chunk_embed → retrieve_context →
summarize_subtopics → synthesize_review → END

Each stage is a node in `graph/nodes/`. The tools behind them live in `tools/`:
`search_tool.py` holds the search backends and their dispatcher, and `fetch_tool.py` the
page fetch and its whitespace cleanup. `graph/nodes/quality_check.py` holds a
document-count gate and a retry decision. No edge of the graph reaches that gate.

Most stages are still placeholders in the source:
- the planner always proposes the same three subtopics;
- the fetcher invents one document per URL;
- the chunker keeps the first 500 characters of each document and builds no vector store;
- the summariser and the synthesiser fill fixed templates.

The model keeps all of this exactly, constants included.

## How the model is laid out

One Dafny module per source file:

| module | source |
|---|---|
| `State` | `graph/state.py` |
| `Planner` | `graph/nodes/planner.py` |
| `Searcher` | `graph/nodes/searcher.py` |
| `Fetcher` | `graph/nodes/fetcher.py` |
| `ChunkEmbed` | `graph/nodes/chunk_embed.py` |
| `Retriever` | `graph/nodes/retriever.py` |
| `Summarizer` | `graph/nodes/summarizer.py` |
| `Synthesizer` | `graph/nodes/synthesizer.py` |
| `QualityCheck` | `graph/nodes/quality_check.py` |
| `SearchTool` | `tools/search_tool.py` |
| `FetchTool` | `tools/fetch_tool.py` |
| `ReviewGraph` | `main.py` |

Three more modules carry the Python semantics the nodes rely on:
- `Wrappers`: `Option` and `Result`.
- `Text`: decimal numerals, for the f-strings.
- `Lists` and `Dicts`: list comprehensions with a filter, slicing, and insertion-ordered
  dicts with `d[k] = v` and `d.get(k)`.

**The state.** `ReviewState` is a class whose fields the stages overwrite. Each node is a
method that `modifies` exactly the fields the Python node assigns.

**Keys that may be missing.** The internal keys `_search_results` and
`_retrieved_chunks` can be in three conditions: absent, present as None, or present with
a value. They are modelled by `Slot`, because the source's `.get(key, {})` treats these
three cases differently.

**Loops.** Each node's loop is a method proved against a specification function of its
inputs. The properties the source promises are lemmas about those functions.

**Outside calls.** The search call, the page download and the vector store's similarity
search are parameters of the model:
- the search is `Searcher.Search`, a function from a query to hits or an exception;
- the page download is the `page` argument of `FetchTool.FetchUrl`;
- the similarity search is `Retriever.SimilaritySearch`.

**Raised exceptions.** An exception that a node does not catch is a `raised` result, and
the state is then left as it was.

## Model

| member | source | states |
|---|---|---|
| State.ReviewState.constructor | main.py:83-93 | the initial state: the topic; empty subtopics, documents, chunks and summaries; no review and no store; `_search_results` and `_retrieved_chunks` present as None; the quality keys absent |
| Text.DecimalRoundTrip | tools/search_tool.py:38-40 | the numeral an f-string writes for a number reads back as that number |
| Text.DecimalInjective | graph/nodes/planner.py:42-53 | different numbers give different numerals, so the numbered names and URLs are distinct |
| Lists.Filter | graph/nodes/searcher.py:40 | a comprehension with an `if` keeps at most the input's items, and only those that pass the test |
| Lists.FilterMembers | graph/nodes/retriever.py:29-32 | an item is kept exactly when it is in the input and passes the test |
| Lists.FilterAppend | graph/nodes/retriever.py:29-32 | filtering a concatenation filters each part, in order |
| Lists.FilterSubsumed | graph/nodes/searcher.py:37-40 | filtering first by a weaker test (a non-empty URL) and then by a stronger one (starts with "http") is the stronger filter alone |
| Lists.Take | graph/nodes/searcher.py:42 | `xs[:n]` is a prefix of xs of length min(n, len(xs)) |
| Dicts.Get | graph/nodes/summarizer.py:39 | `d.get(k)` finds a value exactly when k is a key, and with unique keys it finds the value stored under k |
| Dicts.Put | graph/nodes/searcher.py:42 | `d[k] = v` grows the dict by one entry exactly when k is new |
| Dicts.PutGet | graph/nodes/retriever.py:33 | after `d[k] = v`, reading k gives v and every other key reads as before |
| Dicts.PutKeys | graph/nodes/retriever.py:54 | assigning an existing key keeps the keys and their order; a new key is appended last |
| Dicts.PutUnique | graph/nodes/searcher.py:42 | assignment never duplicates a key |
| Dicts.Assigned | graph/nodes/searcher.py:27-52 | a dict built by assignments from `{}` has unique keys |
| Dicts.AssignedKeys | graph/nodes/searcher.py:27-52 | the keys of such a dict are exactly the assigned keys |
| Dicts.AssignedGet | graph/nodes/retriever.py:28-33 | reading a key back gives the last value assigned to it |
| Dicts.AssignedDistinct | graph/nodes/retriever.py:39-64 | with no key assigned twice, the dict holds the assignments exactly, in order |
| Planner.PlaceholderSubtopics | graph/nodes/planner.py:40-56 | three subtopics named "Subtopic 1" to "Subtopic 3", with distinct names and distinct queries; each query extends the topic; no name or rationale is empty |
| Planner.PlanSubtopics | graph/nodes/planner.py:58 | the node overwrites `subtopics` with the placeholder plan for the state's topic and changes nothing else |
| SearchTool.SearchBrave | tools/search_tool.py:36-43 | `range(num_results)` hits (none when num_results <= 0); hit i has the https result URL numbered i+1; the URLs are distinct; every title ends with the query |
| SearchTool.PlaceholderHitShape | tools/search_tool.py:37-41 | one hit's URL is the result prefix followed by its rank, and its title ends with the query |
| SearchTool.PlaceholderHit | tools/search_tool.py:37-41 | the placeholder hit at a rank: "Result <rank> for <query>", the result URL numbered by the rank, and its snippet (its shape is `PlaceholderHitShape`) |
| SearchTool.SearchSerp | tools/search_tool.py:46-73 | the SerpAPI placeholder returns exactly the Brave placeholder hits for the same query and count |
| SearchTool.SearchWeb | tools/search_tool.py:76-93 | "brave" and "serp" succeed with the Brave placeholder hits; every other backend raises ValueError "Unknown backend: " followed by the backend |
| Searcher.DispatchSearch | graph/nodes/searcher.py:34 | the call the node makes: the dispatcher with backend "duckduckgo" and five results (it always raises, `DispatchSearchFails`) |
| Searcher.KeptUrls | graph/nodes/searcher.py:37-42 | at most five URLs, each non-empty and starting with "http": the first five such URLs, in result order |
| Searcher.PlaceholderUrls | graph/nodes/searcher.py:48-52 | three distinct http URLs, article1 to article3, each followed by the subtopic name |
| Searcher.UrlsFor | graph/nodes/searcher.py:32-52 | a successful search stores its kept URLs and a raised one the placeholders; both are at most five http URLs |
| Searcher.SearchEntries | graph/nodes/searcher.py:29-52 | one assignment per subtopic, in order, keyed by its name |
| Searcher.SearchResults | graph/nodes/searcher.py:27-52 | `_search_results` is the dict the per-subtopic assignments build from `{}`, with unique keys |
| Searcher.SearchResultsKeys | graph/nodes/searcher.py:27-55 | `_search_results` has unique keys, and a name is a key exactly when some subtopic has that name |
| Searcher.SearchResultsInOrder | graph/nodes/searcher.py:29-52 | with distinct subtopic names, entry i belongs to subtopic i |
| Searcher.SearchIsolation | graph/nodes/searcher.py:32-52 | the URLs stored for a name depend only on the searches for that name: another subtopic's failure cannot change them |
| Searcher.DispatchSearchFails | graph/nodes/searcher.py:34 | the node asks for the "duckduckgo" backend, which the dispatcher rejects, so every search raises |
| Searcher.ShippedSearchPlaceholders | graph/nodes/searcher.py:34-52 | hence every subtopic name receives its three placeholder URLs |
| Searcher.SearchStep | graph/nodes/searcher.py:42-52 | one more subtopic assigns its URLs on top of the dict built so far |
| Searcher.CollectSearchResults | graph/nodes/searcher.py:27-52 | the loop builds the dict of the per-subtopic assignments |
| Searcher.SearchWeb | graph/nodes/searcher.py:55 | the node writes `_search_results` and nothing else |
| Fetcher.PlaceholderDocument | graph/nodes/fetcher.py:38-44 | the document made for a URL of a subtopic: the URL, "Article about " and the name, the placeholder content naming the URL, owned by the subtopic (its properties are `DocumentsOwned`, `DocumentsUrls`) |
| Fetcher.DocumentsFor | graph/nodes/fetcher.py:35-45 | one placeholder document per URL of a subtopic, in URL order, titled after the subtopic and owned by it |
| Fetcher.Documents | graph/nodes/fetcher.py:34-45 | exactly one document per URL over all entries |
| Fetcher.DocumentsUrls | graph/nodes/fetcher.py:34-45 | the document URLs are all the URLs, entry after entry, each entry's in its own order |
| Fetcher.DocumentsOwned | graph/nodes/fetcher.py:37-44 | every document is the placeholder for its URL and belongs to a key of `_search_results` |
| Fetcher.DocumentsAppend | graph/nodes/fetcher.py:34-45 | the documents of concatenated entries are the concatenated documents |
| Fetcher.CollectDocuments | graph/nodes/fetcher.py:29-45 | the nested loops build exactly those documents |
| Fetcher.FetchPages | graph/nodes/fetcher.py:32-47 | it raises exactly when `_search_results` is None, and the state is then unchanged; a missing key gives no documents; otherwise `documents` holds one document per URL |
| ChunkEmbed.ChunkOf | graph/nodes/chunk_embed.py:58-64 | a chunk's text is the first min(500, len) characters of the content, and it carries the document's url, title and subtopic |
| ChunkEmbed.Chunks | graph/nodes/chunk_embed.py:55-65 | exactly one chunk per document, in document order |
| ChunkEmbed.ChunksAppend | graph/nodes/chunk_embed.py:56-65 | chunking concatenated document lists concatenates their chunks |
| ChunkEmbed.CollectChunks | graph/nodes/chunk_embed.py:55-65 | the loop builds exactly those chunks |
| ChunkEmbed.ChunkAndEmbed | graph/nodes/chunk_embed.py:67-68 | the node replaces `chunks` and sets `vector_store` to None |
| Retriever.FilteredChunks | graph/nodes/retriever.py:29-33 | the filter path returns exactly the first min(10, matches) chunks of the subtopic, in chunk order: a prefix of the matches of that length, all of the subtopic; with ten or fewer matches it misses none |
| Retriever.RetrievedFor | graph/nodes/retriever.py:25-64 | one subtopic's entry: without a store it is the filter path (at most ten chunks, all of the subtopic); with a store, the hits, or the filter path when the query raised |
| Retriever.RetrievedChunks | graph/nodes/retriever.py:22-66 | `_retrieved_chunks` is the dict the per-subtopic assignments build from `{}`, with unique keys |
| Retriever.RetrieveEntries | graph/nodes/retriever.py:28-64 | one assignment per subtopic, in order, keyed by its name |
| Retriever.RetrievedKeys | graph/nodes/retriever.py:28-64 | every subtopic name has an entry and no other key appears |
| Retriever.NoLeakage | graph/nodes/retriever.py:25-34 | without a store, or when every semantic query raised, each entry is that subtopic's filtered chunks: no chunk of another subtopic, at most ten |
| Retriever.RetrievedInOrder | graph/nodes/retriever.py:39-64 | with distinct names, entry i is subtopic i's |
| Retriever.SemanticFallback | graph/nodes/retriever.py:39-64 | with a store, a subtopic gets its semantic hits, or its own filtered chunks when its query raised, whatever happened to the others |
| Retriever.RetrievedStep | graph/nodes/retriever.py:33 | one more subtopic assigns its entry on top of the dict so far |
| Retriever.CollectRetrieved | graph/nodes/retriever.py:22-64 | both loops (filter, and semantic with fallback) build exactly the retrieved dict |
| Retriever.RetrieveContext | graph/nodes/retriever.py:66 | the node writes `_retrieved_chunks` from the subtopics, the chunks and the store, and nothing else |
| Summarizer.SourceUrls | graph/nodes/summarizer.py:51 | the sources are the URLs of the first min(3, len) chunks, in order |
| Summarizer.SummaryText | graph/nodes/summarizer.py:45-46 | the summary text begins "Academic summary for " followed by the subtopic name |
| Summarizer.SummaryTextInjective | graph/nodes/summarizer.py:45-46 | the summary text determines both the subtopic name and the number of retrieved chunks |
| Summarizer.ChunksFor | graph/nodes/summarizer.py:39 | `retrieved_chunks.get(name, [])`: no chunks for a missing name, and the stored chunks for a present one |
| Summarizer.SummaryFor | graph/nodes/summarizer.py:42-52 | the summary of one subtopic names it, carries the two placeholder findings and cites at most three sources |
| Summarizer.Summaries | graph/nodes/summarizer.py:38-53 | one summary per subtopic, in subtopic order, each built from that subtopic's retrieved chunks |
| Summarizer.SummarySources | graph/nodes/summarizer.py:39-51 | each summary cites at most three sources, and each is the URL of a chunk retrieved for its subtopic, in order |
| Summarizer.CollectSummaries | graph/nodes/summarizer.py:36-53 | the loop builds exactly those summaries |
| Summarizer.SummarizeSubtopics | graph/nodes/summarizer.py:35-55 | it raises exactly when `_retrieved_chunks` is None and there is a subtopic whose `.get` runs, and the state is then unchanged; with None and no subtopics `summaries` becomes empty; a missing key reads as `{}`; otherwise `summaries` is rebuilt from the retrieved chunks |
| Synthesizer.Header | graph/nodes/synthesizer.py:37-45 | the review's opening starts with the title line naming the topic |
| Synthesizer.Section | graph/nodes/synthesizer.py:48-53 | one summary's block starts with its heading and then its summary paragraph |
| Synthesizer.Review | graph/nodes/synthesizer.py:37-61 | the whole review: header, one section per summary in order, fixed footer (its frame is `ReviewFrame`, its sections `SectionInReview`) |
| Synthesizer.RenderedAppend | graph/nodes/synthesizer.py:47-53 | appending the rendered items keeps item order across a concatenation |
| Synthesizer.RenderedAt | graph/nodes/synthesizer.py:47-53 | item i's text sits between the texts of the items before it and those after it |
| Synthesizer.ReviewFrame | graph/nodes/synthesizer.py:37-61 | the review opens with the title naming the topic and always ends with the Research Gaps / Conclusion footer |
| Synthesizer.SectionInReview | graph/nodes/synthesizer.py:47-53 | every summary's whole section appears in the review, after the sections before it and before the sections after it |
| Synthesizer.FindingInSection | graph/nodes/synthesizer.py:50-52 | every key finding appears as its own bullet line in its summary's section, in order |
| Synthesizer.AppendSection | graph/nodes/synthesizer.py:48-53 | one pass of the outer loop appends exactly that summary's section |
| Synthesizer.AppendFindings | graph/nodes/synthesizer.py:51-52 | the inner loop appends one bullet per finding, in order |
| Synthesizer.AppendSections | graph/nodes/synthesizer.py:47-53 | the outer loop appends one section per summary, in order |
| Synthesizer.AssembleReview | graph/nodes/synthesizer.py:37-61 | the accumulated text is header, then the sections, then the footer |
| Synthesizer.SynthesizeReview | graph/nodes/synthesizer.py:63 | the node sets `final_review` and nothing else |
| QualityCheck.QualityPassed | graph/nodes/quality_check.py:33-47 | the gate in integers: at least five documents and twice the documents at least max(subtopics, 1) (its equivalence with the ratio test is `QualityPassedRatio`) |
| QualityCheck.QualityPassedRatio | graph/nodes/quality_check.py:33-47 | the integer test used by the model passes exactly when there are at least five documents and documents / max(subtopics, 1) >= 0.5 over the reals |
| QualityCheck.QualityPassedFewSubtopics | graph/nodes/quality_check.py:44-47 | with at most ten subtopics the ratio test never decides: passing means having five documents |
| QualityCheck.CheckQuality | graph/nodes/quality_check.py:29-56 | the node writes the gate's verdict on the current counts into `_quality_passed` and nothing else |
| QualityCheck.ShouldRetrySearch | graph/nodes/quality_check.py:71-81 | the answer is "retry" or "continue"; it is "retry" exactly when the gate failed and fewer than one retry was made (a missing flag reads as passed, a missing count as 0) |
| QualityCheck.FreshStateContinues | graph/nodes/quality_check.py:71-81 | a state the gate never saw continues |
| FetchTool.SplitLines | tools/fetch_tool.py:50 | `splitlines()` yields lines without any line boundary (which stretches they are is `SplitLinesJoin` and `SplitLinesCanonical`) |
| FetchTool.SplitLinesJoin | tools/fetch_tool.py:50 | the lines are the stretches between boundaries: each line followed by its boundary gives the text back, every line but the last ends with exactly one boundary ("\r\n" or one line-break character), and the last ends with one or with the text |
| FetchTool.SplitLinesCanonical | tools/fetch_tool.py:50 | an empty line is always followed by a boundary, so a final boundary opens no empty last line; and a lone "\r" boundary is never followed by an empty line ended by "\n", so "\r\n" is one boundary |
| FetchTool.SplitLinesSqueeze | tools/fetch_tool.py:50 | splitting into lines loses only whitespace |
| FetchTool.LStripCut | tools/fetch_tool.py:50-51 | what the leading cut of `strip()` removes is whitespace only |
| FetchTool.RStripCut | tools/fetch_tool.py:50-51 | what the trailing cut of `strip()` removes is whitespace only |
| FetchTool.Strip | tools/fetch_tool.py:50-51 | `strip()` leaves no whitespace at either end and keeps every non-whitespace character, in order |
| FetchTool.StripSlice | tools/fetch_tool.py:50-51 | `strip()` returns a middle slice of its input with only whitespace before and after it, so whitespace inside the text stays |
| FetchTool.StripShape | tools/fetch_tool.py:51 | stripping a text that has no line break and no double space gives one that has neither |
| FetchTool.StripTrimmed | tools/fetch_tool.py:51 | stripping a trimmed text changes nothing |
| FetchTool.SplitDoubleSpace | tools/fetch_tool.py:51 | `split("  ")` gives at least one piece, the first a prefix of the input, none holding a double space |
| FetchTool.SplitDoubleSpaceJoin | tools/fetch_tool.py:51 | joining the pieces with "  " gives the input back |
| FetchTool.SplitDoubleSpaceLines | tools/fetch_tool.py:51 | pieces of a one-line text are one-line |
| FetchTool.SplitDoubleSpaceSqueeze | tools/fetch_tool.py:51 | splitting at double spaces loses only those spaces |
| FetchTool.Phrases | tools/fetch_tool.py:50-51 | every stripped phrase of every stripped line, empty ones included (tidy by `PhrasesTidy`, nothing but whitespace lost by `PhrasesSqueeze`) |
| FetchTool.NonEmpty | tools/fetch_tool.py:52 | the `if chunk` filter keeps only non-empty parts |
| FetchTool.PhrasesTidy | tools/fetch_tool.py:50-51 | every stripped phrase is one-line, trimmed and single-spaced |
| FetchTool.PhrasesSqueeze | tools/fetch_tool.py:50-51 | cutting lines into stripped phrases loses only whitespace |
| FetchTool.NonEmptyKeeps | tools/fetch_tool.py:52 | dropping empty phrases leaves tidy non-empty ones and loses nothing else |
| FetchTool.JoinPhrases | tools/fetch_tool.py:52 | joining tidy non-empty phrases with single spaces gives tidy text with the same non-whitespace characters |
| FetchTool.CleanWhitespace | tools/fetch_tool.py:50-52 | the cleaned text is one line, trimmed and single-spaced, and keeps every non-whitespace character in order (that words stay apart is `CleanWords`, that the join puts single spaces between them is `CleanSpaced`) |
| FetchTool.Words | tools/fetch_tool.py:50-52 | the words of a text, its maximal runs of non-whitespace characters: none is empty, and a text starting with a non-whitespace character has one |
| FetchTool.WordsCut | tools/fetch_tool.py:50-52 | a non-empty stretch of whitespace separates the words before it from those after it |
| FetchTool.WordsStrip | tools/fetch_tool.py:50-51 | `strip()` keeps the words |
| FetchTool.WordsSplitLines | tools/fetch_tool.py:50 | `splitlines()` cuts only between words: the lines' words, in order, are the text's |
| FetchTool.WordsSplitDoubleSpace | tools/fetch_tool.py:51 | `split("  ")` cuts only between words |
| FetchTool.WordsPhrases | tools/fetch_tool.py:50-51 | the stripped phrases carry the lines' words, in order |
| FetchTool.WordsNonEmpty | tools/fetch_tool.py:52 | dropping empty phrases loses no word |
| FetchTool.WordsJoin | tools/fetch_tool.py:52 | joining with a whitespace separator (the `' '` of the join) puts the parts' words one after another, so no two words merge |
| FetchTool.CleanWords | tools/fetch_tool.py:50-52 | the cleaned text has exactly the page text's words, in order: whitespace between two words never vanishes, so "a  b" never becomes "ab" |
| FetchTool.TidyJoinWords | tools/fetch_tool.py:52 | a tidy text whose only whitespace is the plain space is its words joined by single spaces |
| FetchTool.CleanOnlyBlank | tools/fetch_tool.py:50-52 | on text whose whitespace is spaces and line boundaries, the cleaned text holds no whitespace but single spaces |
| FetchTool.CleanSpaced | tools/fetch_tool.py:50-52 | on text whose whitespace is spaces and line boundaries, the cleaned text is exactly its words joined by `' '`: each run of spaces and each line boundary between two words becomes one space |
| FetchTool.CleanDoubleSpace | tools/fetch_tool.py:51-52 | "a  b" is cleaned to "a b" |
| FetchTool.CleanLineBreak | tools/fetch_tool.py:50-52 | "a\n b" is cleaned to "a b" |
| FetchTool.CleanTidyFixed | tools/fetch_tool.py:50-52 | text that is already clean comes back unchanged |
| FetchTool.CleanIdempotent | tools/fetch_tool.py:50-52 | cleaning twice is cleaning once |
| FetchTool.CleanBlank | tools/fetch_tool.py:50-52 | the result is empty exactly when the page held only whitespace |
| FetchTool.FetchUrl | tools/fetch_tool.py:26-58 | a page that was fetched and parsed gives its cleaned text; a failed request gives None |
| FetchTool.FetchedAll | tools/fetch_tool.py:81-83 | the dict has exactly the requested URLs as keys |
| FetchTool.FetchedAllLast | tools/fetch_tool.py:81-83 | each URL maps to the result of its last fetch |
| FetchTool.FetchMultiple | tools/fetch_tool.py:61-85 | the sequential loop builds exactly that dict |
| ReviewGraph.Workflow.constructor | main.py:43 | a new graph builder has no nodes, no edges and no entry point |
| ReviewGraph.Workflow.AddNode | main.py:46-52 | registering a node appends it to the nodes |
| ReviewGraph.Workflow.AddEdge | main.py:56-62 | adding an edge appends it to the edges |
| ReviewGraph.Workflow.SetEntryPoint | main.py:55 | the entry point becomes the named node |
| ReviewGraph.Chain | main.py:56-62 | the edges lead each stage to the next and the last stage to END |
| ReviewGraph.AddStages | main.py:46-52 | the seven stages are registered in order |
| ReviewGraph.ConnectStages | main.py:55-62 | entry at plan_subtopics, then the chain of edges ending at END |
| ReviewGraph.CreateReviewGraph | main.py:30-62 | a fresh graph with the seven stages, entered at the first, chained to END |
| ReviewGraph.Walk | main.py:56-62 | the stages execution visits from a node by following single outgoing edges, stopping at END, at a node without exactly one successor, or when the step bound runs out (its result on the chain is `WalkFrom`, `ChainWalk`) |
| ReviewGraph.ChainSuccessor | main.py:56-62 | in the chain every stage has exactly one successor, so nothing branches |
| ReviewGraph.WalkFrom | main.py:56-62 | following the single outgoing edges from a stage visits the remaining stages in order, then END |
| ReviewGraph.ChainWalk | main.py:56-62 | walking a chain of distinct stages from the first visits all of them in order, then END |
| ReviewGraph.ReviewGraphOrder | main.py:30-62 | the built graph runs the seven stages once each in order and then ends |
| ReviewGraph.Composed | main.py:68-99 | the values the seven stages compute in order for a topic, as pure functions (their sizes are `PipelineShape`) |
| ReviewGraph.StagesRan | main.py:56-62 | a state in which every field from `_search_results` on holds what its stage computes from the fields before it |
| ReviewGraph.RunLiteratureReview | main.py:68-99 | from the initial state, the final state holds the placeholder plan for the topic, and each later field is what its stage computes from the fields the earlier stages wrote |
| ReviewGraph.RunStages | main.py:56-62 | the six stages after planning, in graph order, leave every field as its stage computes it |
| ReviewGraph.Gather | main.py:56-58 | search, fetch and chunk/embed, in order |
| ReviewGraph.Report | main.py:59-62 | retrieve, summarise and synthesise, in order |
| ReviewGraph.Condense | main.py:59-60 | retrieve and summarise, in order |
| ReviewGraph.RanIsComposed | main.py:96-97 | the state after the run equals the pure composition of the stages for its topic |
| ReviewGraph.ShippedEntries | graph/nodes/searcher.py:34-52 | as shipped, every subtopic's search entry is its three placeholder URLs |
| ReviewGraph.BlockOwned | graph/nodes/chunk_embed.py:55-65 | the chunks of one subtopic's documents all belong to that subtopic |
| ReviewGraph.FilterBlock | graph/nodes/retriever.py:29-32 | filtering one subtopic's chunks keeps them all for its own name and none for another name |
| ReviewGraph.EntriesChunks | graph/nodes/retriever.py:29-33 | the subtopic filter over all chunks yields exactly that subtopic's own chunks, or nothing for an unknown name |
| ReviewGraph.EntriesDocumentCount | graph/nodes/fetcher.py:34-45 | with three URLs per subtopic there are three documents per subtopic |
| ReviewGraph.ShippedCounts | main.py:56-62 | for distinct subtopics, the stages give three documents and three chunks per subtopic, three retrieved chunks each, and one summary per subtopic citing three sources |
| ReviewGraph.PipelineShape | main.py:68-99 | for any topic the run yields 3 subtopics, 9 documents, 9 chunks, 3 retrieved chunks per subtopic and 3 summaries each citing 3 sources |

## Left out

- HTTP requests, response status checks and BeautifulSoup parsing in `fetch_url`, including the removal of script and style elements. The page text, or None for a request that raised, is the `page` parameter of `FetchTool.FetchUrl`.
- The `timeout` argument of `fetch_url`, its request headers and its error print are left out.
- `fetch_multiple`'s `max_workers`: the source fetches sequentially and so does the model.
- FetchTool.FetchedAll: the result is a Dafny `map`, which has no key order, while the source's dict keeps the order in which URLs were first fetched. No caller iterates the result, so only the keys and values are modelled.
- The Brave and SerpAPI clients and the API-key environment variables that appear only in comments: the placeholder hits are what the source returns.
- FAISS, the embeddings model, and `similarity_search` itself. The search is the `Retriever.SimilaritySearch` parameter, which already wraps hits into chunks and gives None when the call raises.
- Retriever.SemanticFallback: it does not bound the semantic hits at ten, because that bound belongs to the store the model does not see.
- The vector store's truthiness test (`not state.get("vector_store")`) is modelled as `None` against `Some`. The chunker only ever sets None, and an empty but present store is not modelled.
- LangGraph's `StateGraph`, `compile()` and `invoke()`. The model builds the node and edge lists, proves the walk order (`ReviewGraph.Walk`), and runs the stage methods in that order on one mutable state. Returning the state from each node becomes updating it in place.
- ReviewGraph.Walk takes a step bound (fuel). A graph with a cycle is therefore not modelled beyond that bound, and the shipped graph has no cycle.
- FetchTool.CleanSpaced: states the single-space join only for text whose whitespace is plain spaces and line boundaries. The source keeps a tab, or any other whitespace inside a phrase, as it is, so such text is not cleaned to its words joined by spaces; there `CleanWords` states that the words and their separation survive.
- FetchTool.Strip: its own contract states a trimmed result with the same non-whitespace characters; that the result is a whitespace-framed slice of the input is stated by `FetchTool.StripSlice`.
- RunLiteratureReview: does not state that `_quality_passed` and `_retry_count` stay absent after the run; only the fields the stages write are stated.
- The `QualityCheck` members are proved on their own. `check_quality` and `should_retry_search` are not nodes of the graph, and `_retry_count` is incremented nowhere in the source, so no retry loop is modelled.
- QualityCheck.QualityPassedRatio states the source's float division over exact reals. The model's test is exact and does not round.
- QualityCheck.ShouldRetrySearch models the two internal keys as absent or present with a value. A present None for `_retry_count` would make the comparison raise in the source, but no stage ever writes None there.
- Every `print` call, the banner of `run_literature_review`, and `main()`'s argument handling, API-key check and file output are I/O and are left out.
- `cache.py` and `vectorstore/__init__.py` are not part of this model: no node of the graph calls them.
- The commented-out LLM prompts, text splitter, embeddings and API calls marked TODO are not code the source runs.
- Python's `str.isspace` and `str.splitlines` are modelled over Unicode code points only for the characters they treat as whitespace or line boundaries. Encoding and decoding of the page bytes are left out.
