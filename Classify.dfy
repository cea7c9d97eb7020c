/** The recommendation and science-level classifiers: first-match cascades over
    the raw tag text, each ending in a default bucket so that every tag,
    recognised or not, gets exactly one tier. */
module Classify {
  import opened Text

  /** The recommendation ladder, best first. */
  datatype Tier = StronglyRecommend | Recommend | Shortlist | Consider | Maybe | LowPriority | NotRecommended
  {
    /** The badge colour of the tier. */
    function Color(): string {
      match this
      case StronglyRecommend => "#00d4aa"
      case Recommend => "#4fffdb"
      case Shortlist => "#7dd3fc"
      case Consider => "#fbbf24"
      case Maybe => "#fb923c"
      case LowPriority => "#f87171"
      case NotRecommended => "#ef4444"
    }
  }

  /** The tier of a recommendation tag: "STRONGLY" and "MAYBE" are found
      anywhere in the tag, the other four tags must match exactly. */
  function RecommendationTier(rec: string): Tier {
    if Contains(rec, "STRONGLY") then StronglyRecommend
    else if rec == "★ RECOMMEND" then Recommend
    else if rec == "SHORTLIST" then Shortlist
    else if rec == "CONSIDER" then Consider
    else if Contains(rec, "MAYBE") then Maybe
    else if rec == "LOW PRIORITY" then LowPriority
    else NotRecommended
  }

  /** `get_recommendation_color`: always one of the seven badge colours. */
  function RecommendationColor(rec: string): (c: string)
    ensures c in {"#00d4aa", "#4fffdb", "#7dd3fc", "#fbbf24", "#fb923c", "#f87171", "#ef4444"}
  {
    RecommendationTier(rec).Color()
  }

  /** None of the four exactly-matched tags contains "STRONGLY" or "MAYBE";
      each lacks a letter of both markers. */
  lemma ExactTagsHaveNoMarker()
    ensures !Contains("★ RECOMMEND", "STRONGLY") && !Contains("★ RECOMMEND", "MAYBE")
    ensures !Contains("SHORTLIST", "STRONGLY") && !Contains("SHORTLIST", "MAYBE")
    ensures !Contains("CONSIDER", "STRONGLY") && !Contains("CONSIDER", "MAYBE")
    ensures !Contains("LOW PRIORITY", "STRONGLY") && !Contains("LOW PRIORITY", "MAYBE")
  {
    MissingCharNotContained("★ RECOMMEND", "STRONGLY", 'G');
    MissingCharNotContained("★ RECOMMEND", "MAYBE", 'Y');
    MissingCharNotContained("SHORTLIST", "STRONGLY", 'G');
    MissingCharNotContained("SHORTLIST", "MAYBE", 'Y');
    MissingCharNotContained("CONSIDER", "STRONGLY", 'G');
    MissingCharNotContained("CONSIDER", "MAYBE", 'Y');
    MissingCharNotContained("LOW PRIORITY", "STRONGLY", 'G');
    MissingCharNotContained("LOW PRIORITY", "MAYBE", 'M');
  }

  /** Each tier described independently of the cascade's order: the four exact
      tags are recognised by equality alone, and "MAYBE" loses only to "STRONGLY". */
  lemma RecommendationTierExactly(rec: string)
    ensures RecommendationTier(rec) == StronglyRecommend <==> Contains(rec, "STRONGLY")
    ensures RecommendationTier(rec) == Recommend <==> rec == "★ RECOMMEND"
    ensures RecommendationTier(rec) == Shortlist <==> rec == "SHORTLIST"
    ensures RecommendationTier(rec) == Consider <==> rec == "CONSIDER"
    ensures RecommendationTier(rec) == Maybe <==> Contains(rec, "MAYBE") && !Contains(rec, "STRONGLY")
    ensures RecommendationTier(rec) == LowPriority <==> rec == "LOW PRIORITY"
    ensures RecommendationTier(rec) == NotRecommended <==>
      !Contains(rec, "STRONGLY") && !Contains(rec, "MAYBE") &&
      rec != "★ RECOMMEND" && rec != "SHORTLIST" && rec != "CONSIDER" && rec != "LOW PRIORITY"
  {
    ExactTagsHaveNoMarker();
  }

  /** No two tiers share a colour, so the colour identifies the tier. */
  lemma ColorsDistinct(t: Tier, u: Tier)
    ensures t.Color() == u.Color() <==> t == u
  {
  }

  /** `get_recommendation_color` by cases: a tag containing "STRONGLY" is
      teal whatever else it holds, and only unmatched tags get the fallback red. */
  lemma RecommendationColorCases(rec: string)
    ensures RecommendationColor(rec) == "#00d4aa" <==> Contains(rec, "STRONGLY")
    ensures RecommendationColor(rec) == "#4fffdb" <==> rec == "★ RECOMMEND"
    ensures RecommendationColor(rec) == "#7dd3fc" <==> rec == "SHORTLIST"
    ensures RecommendationColor(rec) == "#fbbf24" <==> rec == "CONSIDER"
    ensures RecommendationColor(rec) == "#fb923c" <==> Contains(rec, "MAYBE") && !Contains(rec, "STRONGLY")
    ensures RecommendationColor(rec) == "#f87171" <==> rec == "LOW PRIORITY"
    ensures RecommendationColor(rec) == "#ef4444" <==>
      !Contains(rec, "STRONGLY") && !Contains(rec, "MAYBE") &&
      rec != "★ RECOMMEND" && rec != "SHORTLIST" && rec != "CONSIDER" && rec != "LOW PRIORITY"
  {
    var t := RecommendationTier(rec);
    RecommendationTierExactly(rec);
    ColorsDistinct(t, StronglyRecommend);
    ColorsDistinct(t, Recommend);
    ColorsDistinct(t, Shortlist);
    ColorsDistinct(t, Consider);
    ColorsDistinct(t, Maybe);
    ColorsDistinct(t, LowPriority);
    ColorsDistinct(t, NotRecommended);
  }

  /** The strongly-recommend tag is not mistaken for the plain recommend tag. */
  lemma StronglyBeforeRecommend()
    ensures RecommendationTier("★ STRONGLY RECOMMEND") == StronglyRecommend
    ensures RecommendationTier("★ RECOMMEND") == Recommend
  {
    assert OccursAt("★ STRONGLY RECOMMEND", "STRONGLY", 2);
    ExactTagsHaveNoMarker();
  }

  /** The four-step science scale, with an unknown bucket. */
  datatype ScienceTier = Strong | Good | Some | Low | Unknown
  {
    /** The icon shown beside an applicant. */
    function Emoji(): string {
      match this
      case Strong => "\U{1F52C}"
      case Good => "\U{2697}\U{FE0F}"
      case Some => "\U{1F527}"
      case Low => "\U{1F4E6}"
      case Unknown => "\U{2753}"
    }
  }

  /** The science tier of a level tag: the first of "★★★", "★★☆", "★☆☆",
      "☆☆☆" found in it, in that order. */
  function ScienceTierOf(level: string): ScienceTier {
    if Contains(level, "★★★") then Strong
    else if Contains(level, "★★☆") then Good
    else if Contains(level, "★☆☆") then Some
    else if Contains(level, "☆☆☆") then Low
    else Unknown
  }

  /** `get_science_emoji`: always one of the five icons. */
  function ScienceEmoji(level: string): (e: string)
    ensures e in {"\U{1F52C}", "\U{2697}\U{FE0F}", "\U{1F527}", "\U{1F4E6}", "\U{2753}"}
  {
    ScienceTierOf(level).Emoji()
  }

  /** The "strong science only" marker "★★" is found in every level of the two
      top tiers. */
  lemma TopTiersCarryScienceMarker(level: string)
    requires ScienceTierOf(level) == Strong || ScienceTierOf(level) == Good
    ensures Contains(level, "★★")
  {
    if Contains(level, "★★★") {
      ContainsPrefixOf(level, "★★★", "★★");
    } else {
      ContainsPrefixOf(level, "★★☆", "★★");
    }
  }

  /** The converse fails: a level holding "★★" but neither "★★★" nor "★★☆"
      passes the marker test while its tier is Unknown. */
  lemma ScienceMarkerWiderThanTopTiers()
    ensures Contains("★★", "★★") && ScienceTierOf("★★") == Unknown
  {
    assert OccursAt("★★", "★★", 0);
  }

  /** The tier is the first pattern hit in the fixed order, whatever follows,
      and only the Unknown tier shows the question mark. */
  lemma ScienceTierFirstMatch(level: string)
    ensures ScienceTierOf(level) == Strong <==> Contains(level, "★★★")
    ensures ScienceTierOf(level) == Good <==> !Contains(level, "★★★") && Contains(level, "★★☆")
    ensures ScienceTierOf(level) == Some <==> !Contains(level, "★★★") && !Contains(level, "★★☆") && Contains(level, "★☆☆")
    ensures ScienceTierOf(level) == Low <==>
      !Contains(level, "★★★") && !Contains(level, "★★☆") && !Contains(level, "★☆☆") && Contains(level, "☆☆☆")
    ensures ScienceTierOf(level) == Unknown <==>
      !Contains(level, "★★★") && !Contains(level, "★★☆") && !Contains(level, "★☆☆") && !Contains(level, "☆☆☆")
    ensures ScienceEmoji(level) == "\U{2753}" <==> ScienceTierOf(level) == Unknown
  {
    match ScienceTierOf(level)
    case Strong => assert ScienceEmoji(level)[0] != '\U{2753}';
    case Good => assert ScienceEmoji(level)[0] != '\U{2753}';
    case Some => assert ScienceEmoji(level)[0] != '\U{2753}';
    case Low => assert ScienceEmoji(level)[0] != '\U{2753}';
    case Unknown =>
  }
}
