/** graph/nodes/summarizer.py: one placeholder summary per subtopic from its retrieved chunks. */
module Summarizer {
  import opened Wrappers
  import opened Text
  import opened Lists
  import opened Dicts
  import opened State

  const FirstFinding := "Finding 1: Placeholder finding"
  const SecondFinding := "Finding 2: Another finding"
  const MaxSources: nat := 3

  const SummaryPrefix := "Academic summary for "
  const CountLead := ". Based on "
  const CountTail := " retrieved sources."

  /** `[chunk["metadata"]["url"] for chunk in chunks[:3]]`. */
  function SourceUrls(chunks: seq<Chunk>): (urls: seq<string>)
    ensures |urls| == |Take(chunks, MaxSources)|
    ensures forall j :: 0 <= j < |urls| ==> urls[j] == chunks[j].metadata.url
  {
    var first := Take(chunks, MaxSources);
    seq(|first|, j requires 0 <= j < |first| => first[j].metadata.url)
  }

  /** The summary sentence: names the subtopic and how many chunks were retrieved for it. */
  function SummaryText(name: string, count: nat): (text: string)
    ensures SummaryPrefix + name <= text
  {
    SummaryPrefix + name + CountLead + Decimal(count) + CountTail
  }

  /**
   * The summary text determines both the subtopic name and the retrieved count: the
   * numeral is the maximal run of digits before the fixed tail, since a space precedes it.
   */
  lemma {:induction false} SummaryTextInjective(name1: string, count1: nat, name2: string, count2: nat)
    requires SummaryText(name1, count1) == SummaryText(name2, count2)
    ensures name1 == name2 && count1 == count2
  {
    var d1, d2 := Decimal(count1), Decimal(count2);
    var x1, x2 := SummaryPrefix + name1 + CountLead, SummaryPrefix + name2 + CountLead;
    var t := SummaryText(name1, count1);
    assert t == x1 + d1 + CountTail == x2 + d2 + CountTail;
    var body := t[..|t| - |CountTail|];
    assert body == x1 + d1 && body == x2 + d2;
    SpaceLedNumeral(body, x1, d1, x2, d2);
    DecimalRoundTrip(count1);
    DecimalRoundTrip(count2);
    assert name1 == x1[|SummaryPrefix|..|x1| - |CountLead|];
    assert name2 == x2[|SummaryPrefix|..|x2| - |CountLead|];
  }

  /** Two space-led numerals ending the same text are the same numeral. */
  lemma {:induction false} SpaceLedNumeral(body: string, x1: string, d1: string, x2: string, d2: string)
    requires body == x1 + d1 && body == x2 + d2
    requires |x1| > 0 && x1[|x1| - 1] == ' ' && |x2| > 0 && x2[|x2| - 1] == ' '
    requires forall j :: 0 <= j < |d1| ==> '0' <= d1[j] <= '9'
    requires forall j :: 0 <= j < |d2| ==> '0' <= d2[j] <= '9'
    ensures x1 == x2 && d1 == d2
  {
    assert body[|x1| - 1] == ' ' && body[|x2| - 1] == ' ';
    assert forall j :: |x1| <= j < |body| ==> body[j] == d1[j - |x1|];
    assert forall j :: |x2| <= j < |body| ==> body[j] == d2[j - |x2|];
    assert |x1| == |x2|;
    assert x1 == body[..|x1|] == x2;
  }

  /** The chunks `retrieved_chunks.get(name, [])` yields. */
  function ChunksFor(retrieved: Dict<seq<Chunk>>, name: string): (chunks: seq<Chunk>)
    ensures name !in Keys(retrieved) ==> chunks == []
    ensures UniqueKeys(retrieved) ==> forall i :: 0 <= i < |retrieved| && retrieved[i].0 == name ==> chunks == retrieved[i].1
  {
    Get(retrieved, name).GetOr([])
  }

  /** The placeholder Summary for one subtopic. */
  function SummaryFor(subtopic: Subtopic, retrieved: Dict<seq<Chunk>>): (s: Summary)
    ensures s.subtopic == subtopic.name
    ensures s.keyFindings == [FirstFinding, SecondFinding]
    ensures |s.sources| <= MaxSources
  {
    var chunks := ChunksFor(retrieved, subtopic.name);
    Summary(subtopic.name, SummaryText(subtopic.name, |chunks|), [FirstFinding, SecondFinding], SourceUrls(chunks))
  }

  /** The `summaries` list: one Summary per subtopic, in subtopic order. */
  function Summaries(subtopics: seq<Subtopic>, retrieved: Dict<seq<Chunk>>): (summaries: seq<Summary>)
    ensures |summaries| == |subtopics|
    ensures forall i :: 0 <= i < |subtopics| ==> summaries[i] == SummaryFor(subtopics[i], retrieved)
  {
    if subtopics == [] then []
    else
      var n := |subtopics| - 1;
      Summaries(subtopics[..n], retrieved) + [SummaryFor(subtopics[n], retrieved)]
  }

  /**
   * Each summary cites at most three sources, each the URL of a chunk retrieved for its
   * subtopic, and its text reports how many chunks were retrieved.
   */
  lemma {:induction false} SummarySources(subtopics: seq<Subtopic>, retrieved: Dict<seq<Chunk>>, i: nat, j: nat)
    requires i < |subtopics|
    ensures |Summaries(subtopics, retrieved)[i].sources| <= MaxSources
    ensures j < |Summaries(subtopics, retrieved)[i].sources| ==>
              var chunks := ChunksFor(retrieved, subtopics[i].name);
              j < |chunks| && Summaries(subtopics, retrieved)[i].sources[j] == chunks[j].metadata.url
  {
  }

  /** The loop of `summarize_subtopics`. */
  method CollectSummaries(subtopics: seq<Subtopic>, retrieved: Dict<seq<Chunk>>) returns (summaries: seq<Summary>)
    ensures summaries == Summaries(subtopics, retrieved)
  {
    summaries := [];
    for i := 0 to |subtopics|
      invariant summaries == Summaries(subtopics[..i], retrieved)
    {
      var subtopic := subtopics[i];
      var chunks := ChunksFor(retrieved, subtopic.name);
      var urls := SourceUrls(chunks);
      assert subtopics[..i + 1][..i] == subtopics[..i];
      summaries := summaries + [Summary(subtopic.name, SummaryText(subtopic.name, |chunks|),
                                        [FirstFinding, SecondFinding], urls)];
    }
    assert subtopics[..|subtopics|] == subtopics;
  }

  /**
   * `summarize_subtopics`: replaces `summaries`. A missing `_retrieved_chunks` reads as
   * `{}`. A present None makes the first `.get` in the loop raise, leaving the state as it
   * was; with no subtopics the loop never reaches it and `summaries` becomes empty.
   */
  method SummarizeSubtopics(st: ReviewState) returns (raised: bool)
    modifies st`summaries
    ensures raised <==> st.retrievedChunks == Null && |st.subtopics| > 0
    ensures raised ==> st.summaries == old(st.summaries)
    ensures st.retrievedChunks == Null && st.subtopics == [] ==> st.summaries == []
    ensures st.retrievedChunks == Absent ==> st.summaries == Summaries(st.subtopics, [])
    ensures st.retrievedChunks.Present? ==> st.summaries == Summaries(st.subtopics, st.retrievedChunks.value)
  {
    match st.retrievedChunks {
      case Null =>
        if |st.subtopics| == 0 {
          raised := false;
          st.summaries := [];
        } else {
          raised := true;
        }
      case Absent =>
        raised := false;
        st.summaries := CollectSummaries(st.subtopics, []);
      case Present(retrieved) =>
        raised := false;
        st.summaries := CollectSummaries(st.subtopics, retrieved);
    }
  }
}
