/** graph/state.py: the records the stages exchange and the ReviewState threaded through them. */
module State {
  import opened Wrappers
  import opened Dicts

  datatype Subtopic = Subtopic(name: string, searchQuery: string, rationale: string)

  datatype Document = Document(url: string, title: string, content: string, subtopic: string)

  datatype Summary = Summary(subtopic: string, summary: string, keyFindings: seq<string>, sources: seq<string>)

  /** The `metadata` dict of a chunk: back-references to its document and subtopic. */
  datatype ChunkMetadata = ChunkMetadata(url: string, title: string, subtopic: string)

  datatype Chunk = Chunk(text: string, metadata: ChunkMetadata)

  /** A handle on a vector store: the texts and metadata it was built from. */
  datatype VectorIndex = VectorIndex(texts: seq<string>, metadatas: seq<ChunkMetadata>)

  /** An optional key of the state dict: missing, present with None, or present with a value. */
  datatype Slot<T> = Absent | Null | Present(value: T)

  /** The state dict every stage receives and updates in place. */
  class ReviewState {
    var topic: string
    var subtopics: seq<Subtopic>
    var documents: seq<Document>
    var chunks: seq<Chunk>
    var summaries: seq<Summary>
    var finalReview: Option<string>
    var vectorStore: Option<VectorIndex>
    /** `_search_results`: subtopic name to URLs. */
    var searchResults: Slot<Dict<seq<string>>>
    /** `_retrieved_chunks`: subtopic name to its retrieved chunks. */
    var retrievedChunks: Slot<Dict<seq<Chunk>>>
    /** `_quality_passed` and `_retry_count` may be missing (None) altogether. */
    var qualityPassed: Option<bool>
    var retryCount: Option<int>

    /** The initial state of `run_literature_review`. */
    constructor (topic: string)
      ensures this.topic == topic
      ensures subtopics == [] && documents == [] && chunks == [] && summaries == []
      ensures finalReview == None && vectorStore == None
      ensures searchResults == Null && retrievedChunks == Null
      ensures qualityPassed == None && retryCount == None
    {
      this.topic := topic;
      subtopics, documents, chunks, summaries := [], [], [], [];
      finalReview, vectorStore := None, None;
      searchResults, retrievedChunks := Null, Null;
      qualityPassed, retryCount := None, None;
    }
  }
}
