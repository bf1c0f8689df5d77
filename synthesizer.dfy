/** graph/nodes/synthesizer.py: the placeholder Markdown literature review. */
module Synthesizer {
  import opened Wrappers
  import opened State

  /** The opening of the review: title and introduction name the topic. */
  function Header(topic: string): (h: string)
    ensures TitleLine + topic <= h
  {
    TitleLine + topic + IntroLead + topic + ThemesHeading
  }

  const TitleLine := "\n# Literature Review: "
  const IntroLead := "\n\n## Introduction\nThis literature review synthesizes research on "
  const ThemesHeading := ".\n\n## Key Themes\n\n"
  const FindingsHeading := "**Key Findings:**\n"
  const SectionMark := "### "
  const BulletMark := "- "
  const BlankLine := "\n\n"
  const LineBreak := "\n"

  const Footer := "\n## Research Gaps\n[TODO: LLM will identify gaps across summaries]\n\n## Conclusion\n[TODO: LLM will synthesize conclusions]\n"

  /** The text of each item rendered in turn, the way the node appends to its accumulator. */
  function Rendered<T>(items: seq<T>, render: T -> string): string
  {
    if items == [] then ""
    else
      var n := |items| - 1;
      Rendered(items[..n], render) + render(items[n])
  }

  /** Rendering keeps item order: a concatenation of lists renders as a concatenation. */
  lemma {:induction false} RenderedAppend<T>(a: seq<T>, b: seq<T>, render: T -> string)
    ensures Rendered(a + b, render) == Rendered(a, render) + Rendered(b, render)
    decreases |b|
  {
    if b == [] {
      assert a + b == a;
    } else {
      var n := |b| - 1;
      assert (a + b)[..|a + b| - 1] == a + b[..n];
      assert (a + b)[|a + b| - 1] == b[n];
      RenderedAppend(a, b[..n], render);
    }
  }

  /** Item i's text sits between the text of the items before it and of those after it. */
  lemma {:induction false} RenderedAt<T>(items: seq<T>, i: nat, render: T -> string)
    requires i < |items|
    ensures Rendered(items, render)
            == Rendered(items[..i], render) + render(items[i]) + Rendered(items[i + 1..], render)
  {
    var front := items[..i] + [items[i]];
    assert items == front + items[i + 1..];
    RenderedAppend(front, items[i + 1..], render);
    RenderedSnoc(items[..i], items[i], render);
  }

  /** One more item's text after an accumulated prefix. */
  lemma {:induction false} RenderedStep<T>(text: string, items: seq<T>, i: nat, render: T -> string)
    requires i < |items|
    ensures text + Rendered(items[..i + 1], render) == text + Rendered(items[..i], render) + render(items[i])
  {
    assert items[..i + 1] == items[..i] + [items[i]];
    RenderedSnoc(items[..i], items[i], render);
  }

  /** Rendering one more item appends its text. */
  lemma {:induction false} RenderedSnoc<T>(items: seq<T>, item: T, render: T -> string)
    ensures Rendered(items + [item], render) == Rendered(items, render) + render(item)
  {
    assert (items + [item])[..|items|] == items;
  }

  /** The bullet line of one finding. */
  function Bullet(finding: string): string
  {
    BulletMark + finding + LineBreak
  }

  /** The block one summary contributes: heading, summary paragraph, key findings, blank line. */
  function Section(s: Summary): (text: string)
    ensures SectionMark + s.subtopic + BlankLine + s.summary <= text
  {
    SectionMark + s.subtopic + BlankLine + s.summary + BlankLine + FindingsHeading + Rendered(s.keyFindings, Bullet) + LineBreak
  }

  /** The whole review: header, the sections in summary order, fixed footer. */
  function Review(topic: string, summaries: seq<Summary>): string
  {
    Header(topic) + Rendered(summaries, Section) + Footer
  }

  /**
   * The review opens with the title and introduction naming the topic and always closes
   * with the fixed Research Gaps / Conclusion block, with or without summaries.
   */
  lemma {:induction false} ReviewFrame(topic: string, summaries: seq<Summary>)
    ensures var r := Review(topic, summaries);
            && TitleLine + topic <= Header(topic) <= r
            && |r| >= |Footer| && r[|r| - |Footer|..] == Footer
  {
    var r := Review(topic, summaries);
    assert r == (Header(topic) + Rendered(summaries, Section)) + Footer;
  }

  /**
   * Every summary's whole section appears in the review, after the sections of the
   * summaries before it and before those of the summaries after it.
   */
  lemma {:induction false} SectionInReview(topic: string, summaries: seq<Summary>, i: nat)
    requires i < |summaries|
    ensures Review(topic, summaries)
            == Header(topic) + Rendered(summaries[..i], Section) + Section(summaries[i])
               + Rendered(summaries[i + 1..], Section) + Footer
  {
    FramedAt(Header(topic), summaries, i, Section, Footer);
  }

  /** RenderedAt inside a surrounding text. */
  lemma {:induction false} FramedAt<T>(head: string, items: seq<T>, i: nat, render: T -> string, tail: string)
    requires i < |items|
    ensures head + Rendered(items, render) + tail
            == head + Rendered(items[..i], render) + render(items[i]) + Rendered(items[i + 1..], render) + tail
  {
    RenderedAt(items, i, render);
  }

  /** Every finding of a summary appears as its own bullet line in that summary's section. */
  lemma {:induction false} FindingInSection(s: Summary, j: nat)
    requires j < |s.keyFindings|
    ensures Section(s)
            == SectionMark + s.subtopic + BlankLine + s.summary + BlankLine + FindingsHeading
               + Rendered(s.keyFindings[..j], Bullet) + Bullet(s.keyFindings[j])
               + Rendered(s.keyFindings[j + 1..], Bullet) + LineBreak
  {
    FramedAt(SectionMark + s.subtopic + BlankLine + s.summary + BlankLine + FindingsHeading, s.keyFindings, j, Bullet, LineBreak);
  }

  /** One pass of the outer loop of `synthesize_review`. */
  method AppendSection(review: string, summary: Summary) returns (extended: string)
    ensures extended == review + Section(summary)
  {
    extended := review + SectionMark + summary.subtopic + BlankLine;
    extended := extended + summary.summary + BlankLine;
    extended := extended + FindingsHeading;
    extended := AppendFindings(extended, summary.keyFindings);
    extended := extended + LineBreak;
  }

  /** The inner loop of `synthesize_review`: one bullet line per finding, in order. */
  method AppendFindings(text: string, findings: seq<string>) returns (extended: string)
    ensures extended == text + Rendered(findings, Bullet)
  {
    extended := text;
    for j := 0 to |findings|
      invariant extended == text + Rendered(findings[..j], Bullet)
    {
      RenderedStep(text, findings, j, Bullet);
      extended := extended + Bullet(findings[j]);
    }
    assert findings[..|findings|] == findings;
  }

  /** `synthesize_review` builds its text in one accumulator: header, sections, footer. */
  method AssembleReview(topic: string, summaries: seq<Summary>) returns (review: string)
    ensures review == Review(topic, summaries)
  {
    review := Header(topic);
    review := AppendSections(review, summaries);
    review := review + Footer;
  }

  /** The outer loop of `synthesize_review`: one section per summary, in order. */
  method AppendSections(text: string, summaries: seq<Summary>) returns (extended: string)
    ensures extended == text + Rendered(summaries, Section)
  {
    extended := text;
    for i := 0 to |summaries|
      invariant extended == text + Rendered(summaries[..i], Section)
    {
      RenderedStep(text, summaries, i, Section);
      extended := AppendSection(extended, summaries[i]);
    }
    assert summaries[..|summaries|] == summaries;
  }

  /** `synthesize_review`: sets `final_review` and nothing else. */
  method SynthesizeReview(st: ReviewState)
    modifies st`finalReview
    ensures st.finalReview == Some(Review(st.topic, st.summaries))
  {
    var review := AssembleReview(st.topic, st.summaries);
    st.finalReview := Some(review);
  }
}
