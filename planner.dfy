/** graph/nodes/planner.py: the placeholder plan of three subtopics. */
module Planner {
  import opened State
  import opened Text

  /** The fixed three-subtopic template built from the topic. */
  function PlaceholderSubtopics(topic: string): (r: seq<Subtopic>)
    ensures |r| == 3
    ensures forall i :: 0 <= i < |r| ==> r[i].name == "Subtopic " + Decimal(i + 1)
    ensures forall i, j :: 0 <= i < j < |r| ==> r[i].name != r[j].name && r[i].searchQuery != r[j].searchQuery
    ensures forall i :: 0 <= i < |r| ==> topic <= r[i].searchQuery && |topic| < |r[i].searchQuery|
    ensures forall i :: 0 <= i < |r| ==> r[i].name != "" && r[i].rationale != ""
  {
    [ Subtopic("Subtopic 1", topic + OverviewAngle, OverviewRationale),
      Subtopic("Subtopic 2", topic + AdvancesAngle, AdvancesRationale),
      Subtopic("Subtopic 3", topic + ChallengesAngle, ChallengesRationale) ]
  }

  const OverviewAngle := " overview"
  const OverviewRationale := "Provides foundational understanding"
  const AdvancesAngle := " recent advances"
  const AdvancesRationale := "Covers latest developments"
  const ChallengesAngle := " challenges"
  const ChallengesRationale := "Identifies open problems"

  /** `plan_subtopics`: overwrites `subtopics` and nothing else. */
  method PlanSubtopics(st: ReviewState)
    modifies st`subtopics
    ensures st.subtopics == PlaceholderSubtopics(st.topic)
  {
    var placeholder := PlaceholderSubtopics(st.topic);
    st.subtopics := placeholder;
  }
}
