/** graph/nodes/quality_check.py: the document-count gate and the retry/continue decision. */
module QualityCheck {
  import opened Wrappers
  import opened State

  const MinTotalDocs: nat := 5
  const MaxRetries: int := 1

  /**
   * `num_documents >= 5 and num_documents / max(num_subtopics, 1) >= 0.5`, the ratio
   * compared in integers: d / m >= 1/2 exactly when 2 * d >= m, for m >= 1.
   */
  predicate QualityPassed(numDocuments: nat, numSubtopics: nat)
  {
    numDocuments >= MinTotalDocs && 2 * numDocuments >= (if numSubtopics > 1 then numSubtopics else 1)
  }

  /** The integer test is the real-number ratio test of the source. */
  lemma {:induction false} QualityPassedRatio(numDocuments: nat, numSubtopics: nat)
    ensures QualityPassed(numDocuments, numSubtopics) <==>
              numDocuments >= MinTotalDocs
              && (numDocuments as real) / ((if numSubtopics > 1 then numSubtopics else 1) as real) >= 0.5
  {
    var m := (if numSubtopics > 1 then numSubtopics else 1) as real;
    var d := numDocuments as real;
    var q := d / m;
    assert q * m == d;
    ScaleMonotone(q, 0.5, m);
    assert (2 * numDocuments >= (if numSubtopics > 1 then numSubtopics else 1)) <==> d >= 0.5 * m;
  }

  /** Multiplying by a positive number keeps the order. */
  lemma {:induction false} ScaleMonotone(x: real, y: real, m: real)
    requires m > 0.0
    ensures x >= y <==> x * m >= y * m
  {
    assert x * m - y * m == (x - y) * m;
  }

  /** With at most ten subtopics the ratio test never bites: passing is having five documents. */
  lemma {:induction false} QualityPassedFewSubtopics(numDocuments: nat, numSubtopics: nat)
    requires numSubtopics <= 10
    ensures QualityPassed(numDocuments, numSubtopics) <==> numDocuments >= MinTotalDocs
  {
  }

  /** `check_quality`: writes `_quality_passed` and nothing else. */
  method CheckQuality(st: ReviewState)
    modifies st`qualityPassed
    ensures st.qualityPassed == Some(QualityPassed(|st.documents|, |st.subtopics|))
  {
    var numDocuments := |st.documents|;
    var numSubtopics := |st.subtopics|;
    var passed := numDocuments >= MinTotalDocs
                  && 2 * numDocuments >= (if numSubtopics > 1 then numSubtopics else 1);
    st.qualityPassed := Some(passed);
  }

  /**
   * `should_retry_search`: "retry" exactly when the gate failed and no retry has been made;
   * a missing flag reads as passed and a missing count as 0.
   */
  function ShouldRetrySearch(st: ReviewState): (route: string)
    reads st
    ensures route == "retry" || route == "continue"
    ensures route == "retry" <==> st.qualityPassed == Some(false) && st.retryCount.GetOr(0) < MaxRetries
  {
    var passed := st.qualityPassed.GetOr(true);
    var retryCount := st.retryCount.GetOr(0);
    if !passed && retryCount < MaxRetries then "retry" else "continue"
  }

  /** A state that has never been through the gate continues. */
  lemma {:induction false} FreshStateContinues(st: ReviewState)
    requires st.qualityPassed == None
    ensures ShouldRetrySearch(st) == "continue"
  {
  }
}
