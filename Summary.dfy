/** `generate_eval_summary`: the evaluation narrative shown for an applicant.
    The recommendation tag selects one of five templates; only the strongest
    template may end with a sentence on the projected plastic impact. */
module Summary {
  import opened Wrappers
  import opened Text
  import opened Decimal
  import opened Applicants
  import opened Classify

  /** The fixed wording of one template, in the order it is used: the
      framing right after the bold venture name, the words leading to the
      italic description, to the weighted score and to the innovation score,
      and the closing words. */
  datatype Phrases = Phrases(framing: string, descriptionLead: string, scoreLead: string, innovationLead: string, closing: string)

  const StrongInnovationPhrases := Phrases(
    " demonstrates **strong scientific innovation**",
    " in their approach to plastic waste management. Their solution involves *",
    "*. With a weighted score of ",
    ", this applicant shows excellent potential for the TCCF Bold Ideas program. Their innovation score of **",
    "** reflects genuine science-based differentiation. ")

  const PromisingPhrases := Phrases(
    " presents a **promising science-enabled solution**",
    ". Core offering: *",
    "*. Weighted score: ",
    ". Worth interviewing to assess technical depth and scalability. Innovation score (",
    ") suggests meaningful technical differentiation.")

  const SomeElementsPhrases := Phrases(
    " shows **some scientific elements**",
    " in their approach. Service: *",
    "*. Weighted score: ",
    ". May warrant further review if stronger candidates don't fill cohort. Innovation score: ",
    ".")

  const LimitedDifferentiationPhrases := Phrases(
    " has **limited scientific differentiation**",
    ". Offering: *",
    "*. Weighted score: ",
    ". Innovation score (",
    ") indicates conventional approach. Consider only if science capacity can be demonstrated.")

  const BelowThresholdPhrases := Phrases(
    " does not meet the **science-based innovation threshold**",
    " for this program. Approach: *",
    "*. Weighted score: ",
    ". Innovation score (",
    ") reflects generic or conventional methodology. Not recommended for TCCF Bold Ideas.")

  /** The five narratives, from most to least confident. */
  datatype Template = StrongInnovation | Promising | SomeElements | LimitedDifferentiation | BelowThreshold
  {
    function Wording(): Phrases {
      match this
      case StrongInnovation => StrongInnovationPhrases
      case Promising => PromisingPhrases
      case SomeElements => SomeElementsPhrases
      case LimitedDifferentiation => LimitedDifferentiationPhrases
      case BelowThreshold => BelowThresholdPhrases
    }
  }

  /** The template a recommendation tag selects. Unlike the colour cascade,
      "LOW PRIORITY" has no branch of its own and shares the last template
      with unknown tags. */
  function TemplateFor(rec: string): Template {
    if Contains(rec, "STRONGLY") || rec == "★ RECOMMEND" then StrongInnovation
    else if rec == "SHORTLIST" then Promising
    else if rec == "CONSIDER" then SomeElements
    else if Contains(rec, "MAYBE") then LimitedDifferentiation
    else BelowThreshold
  }

  /** The template serving each recommendation tier. */
  function TemplateOfTier(t: Tier): Template {
    match t
    case StronglyRecommend => StrongInnovation
    case Recommend => StrongInnovation
    case Shortlist => Promising
    case Consider => SomeElements
    case Maybe => LimitedDifferentiation
    case LowPriority => BelowThreshold
    case NotRecommended => BelowThreshold
  }

  /** The summary's own cascade agrees with the tier classifier: two tags of
      the same tier always get the same narrative. */
  lemma TemplateFollowsTier(rec: string)
    ensures TemplateFor(rec) == TemplateOfTier(RecommendationTier(rec))
  {
    RecommendationTierExactly(rec);
  }

  /** How every template quotes the weighted score. */
  function ScoreMention(score: string): string {
    "**" + score + "/5.0**"
  }

  /** How every template quotes the innovation score. */
  function InnovationMention(innovation: string): string {
    innovation + "/5"
  }

  /** `plastic and float(plastic) > 100`, with a parse failure read as false. */
  predicate PlasticOver100(plastic: Option<string>) {
    plastic.Some? && ParseNumber(plastic.value).Some? && ParseNumber(plastic.value).value > 100.0
  }

  /** How the plastic-impact sentence quotes the tonnage. */
  function TonnageMention(plastic: string): string {
    "**" + plastic + " tonnes**"
  }

  /** The closing words of the plastic-impact sentence. */
  const PlasticTail := " aligns well with program targets."

  /** The opening words of the plastic-impact sentence. */
  const PlasticLead := "Projected plastic impact of "

  function PlasticSentence(plastic: string): string {
    PlasticLead + TonnageMention(plastic) + PlasticTail
  }

  /** What follows the narrative: the plastic-impact sentence for the
      strongest template when the tonnage reads as a number above 100, and
      nothing otherwise. */
  function PlasticClause(t: Template, plastic: Option<string>): string {
    if t == StrongInnovation && PlasticOver100(plastic) then PlasticSentence(plastic.value) else ""
  }

  /** The sentence frame all five templates share: an opening, the lead-in
      to the score, the quoted weighted score, a bridge, the quoted innovation
      score and a closing. */
  function Frame(opening: string, lead: string, score: string, bridge: string, innovation: string, closing: string): string {
    opening + lead + score + bridge + innovation + closing
  }

  /** The template's sentences filled in with one applicant's values. */
  function Narrative(t: Template, name: string, what: string, score: string, innovation: string): string {
    var w := t.Wording();
    Frame("**" + name + "**" + w.framing, w.descriptionLead + what + w.scoreLead,
          ScoreMention(score), w.innovationLead, InnovationMention(innovation), w.closing)
  }

  /** The evaluation summary of one applicant: the narrative of its template,
      and for the strongest template the plastic-impact sentence when the
      tonnage reads as a number above 100. */
  function GenerateSummary(a: Applicant): string {
    var t := TemplateFor(a.recommendation);
    Narrative(t, Rendered(a.ventureName), Rendered(a.whatTheyDo), a.weightedScore.text, a.innovation.text)
    + PlasticClause(t, a.plastic)
  }

  /** Whatever follows it, a frame starts with its opening and contains both
      quoted scores. */
  lemma FrameShape(opening: string, lead: string, score: string, bridge: string, innovation: string, closing: string, rest: string)
    ensures IsPrefix(opening, Frame(opening, lead, score, bridge, innovation, closing) + rest)
    ensures Contains(Frame(opening, lead, score, bridge, innovation, closing) + rest, score)
    ensures Contains(Frame(opening, lead, score, bridge, innovation, closing) + rest, innovation)
  {
    var s := Frame(opening, lead, score, bridge, innovation, closing) + rest;
    assert s == (opening + lead) + score + (bridge + innovation + closing + rest);
    ContainsPiece(opening + lead, score, bridge + innovation + closing + rest);
    assert s == (opening + lead + score + bridge) + innovation + (closing + rest);
    ContainsPiece(opening + lead + score + bridge, innovation, closing + rest);
    assert s[..|opening|] == opening;
  }

  /** Every summary opens with the bold venture name followed by the framing
      of the template its tag selects, and quotes the weighted score as
      `**{score}/5.0**` and the innovation score as `{innovation}/5`. */
  lemma SummaryShape(a: Applicant)
    ensures IsPrefix("**" + Rendered(a.ventureName) + "**" + TemplateFor(a.recommendation).Wording().framing, GenerateSummary(a))
    ensures Contains(GenerateSummary(a), ScoreMention(a.weightedScore.text))
    ensures Contains(GenerateSummary(a), InnovationMention(a.innovation.text))
  {
    var t := TemplateFor(a.recommendation);
    var w := t.Wording();
    FrameShape("**" + Rendered(a.ventureName) + "**" + w.framing, w.descriptionLead + Rendered(a.whatTheyDo) + w.scoreLead,
               ScoreMention(a.weightedScore.text), w.innovationLead, InnovationMention(a.innovation.text), w.closing,
               PlasticClause(t, a.plastic));
  }

  /** For a strong or recommended applicant whose tonnage reads as a number
      above 100, the summary is the tonnage-free one followed by the
      plastic-impact sentence, which quotes the tonnage as given. */
  lemma PlasticSentenceWhenOver100(a: Applicant)
    requires TemplateFor(a.recommendation) == StrongInnovation && PlasticOver100(a.plastic)
    ensures GenerateSummary(a) == GenerateSummary(a.(plastic := None)) + PlasticSentence(a.plastic.value)
    ensures Contains(GenerateSummary(a), TonnageMention(a.plastic.value))
  {
    var b := a.(plastic := None);
    assert b.recommendation == a.recommendation && b.ventureName == a.ventureName && b.whatTheyDo == a.whatTheyDo
      && b.weightedScore == a.weightedScore && b.innovation == a.innovation;
    var t := TemplateFor(a.recommendation);
    var n := Narrative(t, Rendered(a.ventureName), Rendered(a.whatTheyDo), a.weightedScore.text, a.innovation.text);
    var sentence := PlasticSentence(a.plastic.value);
    assert PlasticClause(t, a.plastic) == sentence;
    assert GenerateSummary(b) == n + "" == n;
    ContainsPiece(PlasticLead, TonnageMention(a.plastic.value), PlasticTail);
    ContainsInSuffix(n, sentence, TonnageMention(a.plastic.value));
  }

  /** Otherwise the plastic cell plays no part: a missing cell, text that
      does not parse as a number, and a number up to 100 all give the summary
      of an applicant with no tonnage at all. */
  lemma PlasticIgnoredOtherwise(a: Applicant)
    requires TemplateFor(a.recommendation) != StrongInnovation || !PlasticOver100(a.plastic)
    ensures GenerateSummary(a) == GenerateSummary(a.(plastic := None))
  {
    SameSummaryFields(a, a.(plastic := None));
  }

  /** A tonnage that `float()` rejects is swallowed: the summary is the one
      for a missing tonnage, and generating it does not fail. */
  lemma UnparsableTonnageSwallowed(a: Applicant)
    requires a.plastic.Some? && ParseNumber(a.plastic.value) == None
    ensures GenerateSummary(a) == GenerateSummary(a.(plastic := None))
  {
    SameSummaryFields(a, a.(plastic := None));
  }

  /** Only the strongest template depends on the tonnage at all. */
  lemma PlasticOnlyInStrongTemplate(a: Applicant, plastic: Option<string>)
    requires TemplateFor(a.recommendation) != StrongInnovation
    ensures GenerateSummary(a.(plastic := plastic)) == GenerateSummary(a)
  {
    SameSummaryFields(a, a.(plastic := plastic));
  }

  /** Two applicants that agree on the fields the summary reads, and whose
      plastic clauses are both empty, get the same summary. */
  lemma SameSummaryFields(a: Applicant, b: Applicant)
    requires b.recommendation == a.recommendation && b.ventureName == a.ventureName && b.whatTheyDo == a.whatTheyDo
    requires b.weightedScore == a.weightedScore && b.innovation == a.innovation
    requires PlasticClause(TemplateFor(a.recommendation), a.plastic) == PlasticClause(TemplateFor(a.recommendation), b.plastic)
    ensures GenerateSummary(a) == GenerateSummary(b)
  {
  }
}
