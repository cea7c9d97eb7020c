/** One concrete applicant carried through the summary: a strongly
    recommended venture with a projected 150 tonnes, and the same venture with
    a tonnage that is not a number or is too small. */
module Scenario {
  import opened Wrappers
  import opened Text
  import opened Decimal
  import opened Applicants
  import opened Summary

  const Sample := Applicant(
    Some("team@example.org"), Some("Acme Recycling"), Some("pavers from sachets"), Some("Lagos"), Some("Pilot"),
    "★ STRONGLY RECOMMEND", "★★★ STRONG", Score(4.2, "4.2"), Score(4.5, "4.5"), Score(4.0, "4.0"),
    Some("150"), None)

  lemma SampleIsStrong()
    ensures TemplateFor(Sample.recommendation) == StrongInnovation
  {
    assert OccursAt("★ STRONGLY RECOMMEND", "STRONGLY", 2);
  }

  lemma OneFiftyTonnes()
    ensures PlasticOver100(Some("150"))
  {
    assert ShowNat(150) == "150";
    ParseShowNat(150);
  }

  lemma EightyTonnes()
    ensures !PlasticOver100(Some("80"))
  {
    assert ShowNat(80) == "80";
    ParseShowNat(80);
  }

  /** The sample gets the strong template and ends with the tonnage sentence. */
  lemma SampleSummary()
    ensures GenerateSummary(Sample) == GenerateSummary(Sample.(plastic := None)) + PlasticSentence("150")
  {
    SampleIsStrong();
    OneFiftyTonnes();
    PlasticSentenceWhenOver100(Sample);
  }

  /** "N/A" and "80" tonnes give the summary without a tonnage sentence. */
  lemma SampleWithoutTonnage()
    ensures GenerateSummary(Sample.(plastic := Some("N/A"))) == GenerateSummary(Sample.(plastic := None))
    ensures GenerateSummary(Sample.(plastic := Some("80"))) == GenerateSummary(Sample.(plastic := None))
  {
    NotANumber();
    EightyTonnes();
    SameSummaryFields(Sample.(plastic := Some("N/A")), Sample.(plastic := None));
    SameSummaryFields(Sample.(plastic := Some("80")), Sample.(plastic := None));
  }
}
