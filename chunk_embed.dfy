/** graph/nodes/chunk_embed.py: the placeholder chunker, one prefix chunk per document. */
module ChunkEmbed {
  import opened Wrappers
  import opened State

  const ChunkPrefixLength: nat := 500

  /** `doc.content[:500]` with the document's url, title and subtopic as metadata. */
  function ChunkOf(doc: Document): (c: Chunk)
    ensures c.text <= doc.content
    ensures |c.text| == if |doc.content| < ChunkPrefixLength then |doc.content| else ChunkPrefixLength
    ensures c.metadata.url == doc.url && c.metadata.title == doc.title && c.metadata.subtopic == doc.subtopic
  {
    var text := if |doc.content| <= ChunkPrefixLength then doc.content else doc.content[..ChunkPrefixLength];
    Chunk(text, ChunkMetadata(doc.url, doc.title, doc.subtopic))
  }

  /** The chunks of `chunk_and_embed`: exactly one per document, in document order. */
  function Chunks(docs: seq<Document>): (chunks: seq<Chunk>)
    ensures |chunks| == |docs|
    ensures forall i :: 0 <= i < |docs| ==> chunks[i] == ChunkOf(docs[i])
  {
    if docs == [] then [] else Chunks(docs[..|docs| - 1]) + [ChunkOf(docs[|docs| - 1])]
  }

  /** Chunking keeps document order: a concatenation of document lists chunks to a concatenation. */
  lemma {:induction false} ChunksAppend(a: seq<Document>, b: seq<Document>)
    ensures Chunks(a + b) == Chunks(a) + Chunks(b)
  {
    var whole, parts := Chunks(a + b), Chunks(a) + Chunks(b);
    forall i | 0 <= i < |whole| ensures whole[i] == parts[i] {
      if i < |a| {
        assert (a + b)[i] == a[i];
      } else {
        assert (a + b)[i] == b[i - |a|];
      }
    }
  }

  /** The loop of `chunk_and_embed`. */
  method CollectChunks(docs: seq<Document>) returns (chunks: seq<Chunk>)
    ensures chunks == Chunks(docs)
  {
    chunks := [];
    for i := 0 to |docs|
      invariant chunks == Chunks(docs[..i])
    {
      var doc := docs[i];
      var text := if |doc.content| <= ChunkPrefixLength then doc.content else doc.content[..ChunkPrefixLength];
      assert docs[..i + 1][..i] == docs[..i];
      chunks := chunks + [Chunk(text, ChunkMetadata(doc.url, doc.title, doc.subtopic))];
    }
    assert docs[..|docs|] == docs;
  }

  /** `chunk_and_embed`: replaces `chunks` and sets `vector_store` to None. */
  method ChunkAndEmbed(st: ReviewState)
    modifies st`chunks, st`vectorStore
    ensures st.chunks == Chunks(st.documents)
    ensures st.vectorStore == None
  {
    var chunks := CollectChunks(st.documents);
    st.chunks := chunks;
    st.vectorStore := None;
  }
}
