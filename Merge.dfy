/** The enrichment step of `load_data`: every evaluation row whose email
    matches a row of the original application database takes seven columns
    from the first such row, five of them cut to a maximum length. */
module Merge {
  import opened Wrappers
  import opened Text
  import opened Applicants

  const ScienceInputsLimit := 1000
  const BoldCharacteristicsLimit := 600
  const ProblemAddressedLimit := 500
  const BeneficiariesLimit := 400
  const TeamInfoLimit := 600

  /** `orig_df['Email'] == email` for one source row: a missing email on
      either side matches nothing. */
  predicate EmailMatches(email: Option<string>, row: SourceRow) {
    email.Some? && row.email == email
  }

  /** The index `iloc[0]` picks: the first source row whose email matches. */
  function FirstMatch(email: Option<string>, source: seq<SourceRow>): (r: Option<nat>)
    ensures r.Some? ==> r.value < |source| && EmailMatches(email, source[r.value])
    ensures r.Some? ==> forall j :: 0 <= j < r.value ==> !EmailMatches(email, source[j])
    ensures r.None? ==> forall j :: 0 <= j < |source| ==> !EmailMatches(email, source[j])
  {
    if |source| == 0 then None
    else if EmailMatches(email, source[0]) then Some(0)
    else match FirstMatch(email, source[1..])
      case None => None
      case Some(k) => Some(k + 1)
  }

  /** `str(value) if pd.notna(value) else ''`. */
  function CellText(cell: Option<string>): string {
    match cell
    case Some(t) => t
    case None => ""
  }

  /** `cut` is the first `limit` characters of `text`, or all of it when
      it is shorter. */
  predicate CutTo(cut: string, text: string, limit: nat) {
    IsPrefix(cut, text) && |cut| == if |text| <= limit then |text| else limit
  }

  /** The cut is determined: two cuts of the same text to the same limit
      are equal, so `Extract` leaves nothing open in those columns. */
  lemma CutToUnique(a: string, b: string, text: string, limit: nat)
    requires CutTo(a, text, limit) && CutTo(b, text, limit)
    ensures a == b
  {
    assert a == text[..|a|] && b == text[..|b|];
  }

  /** The seven columns copied from a matched source row. */
  function Extract(row: SourceRow): (e: Enrichment)
    ensures CutTo(e.scienceInputs, CellText(row.scienceInputs), ScienceInputsLimit)
    ensures CutTo(e.boldCharacteristics, CellText(row.boldCharacteristics), BoldCharacteristicsLimit)
    ensures CutTo(e.problemAddressed, CellText(row.problemAddressed), ProblemAddressedLimit)
    ensures CutTo(e.beneficiaries, CellText(row.beneficiaries), BeneficiariesLimit)
    ensures CutTo(e.teamInfo, CellText(row.team), TeamInfoLimit)
    ensures e.linkedIn == CellText(row.linkedIn) && e.website == CellText(row.website)
  {
    Enrichment(
      Truncate(CellText(row.scienceInputs), ScienceInputsLimit),
      Truncate(CellText(row.boldCharacteristics), BoldCharacteristicsLimit),
      Truncate(CellText(row.problemAddressed), ProblemAddressedLimit),
      Truncate(CellText(row.beneficiaries), BeneficiariesLimit),
      Truncate(CellText(row.team), TeamInfoLimit),
      CellText(row.linkedIn),
      CellText(row.website))
  }

  /** The enrichment columns stay within their maximum lengths. */
  predicate WithinLimits(e: Enrichment) {
    |e.scienceInputs| <= ScienceInputsLimit && |e.boldCharacteristics| <= BoldCharacteristicsLimit &&
    |e.problemAddressed| <= ProblemAddressedLimit && |e.beneficiaries| <= BeneficiariesLimit &&
    |e.teamInfo| <= TeamInfoLimit
  }

  /** One evaluation row after the merge: only its enrichment columns can
      change. */
  function Enriched(a: Applicant, source: seq<SourceRow>): (b: Applicant)
    ensures b.(details := a.details) == a
  {
    match FirstMatch(a.email, source)
    case None => a
    case Some(k) => a.(details := Some(Extract(source[k])))
  }

  /** The evaluation table after the merge; with no source table it is left
      as it was. */
  function Merged(rows: seq<Applicant>, source: Option<seq<SourceRow>>): (r: seq<Applicant>)
    ensures |r| == |rows|
  {
    match source
    case None => rows
    case Some(src) => seq(|rows|, i requires 0 <= i < |rows| => Enriched(rows[i], src))
  }

  /** The merge loop, writing the matched columns onto the rows in place. */
  method MergeInPlace(rows: array<Applicant>, source: Option<seq<SourceRow>>)
    modifies rows
    ensures rows[..] == Merged(old(rows[..]), source)
  {
    if source.Some? {
      var src := source.value;
      var i := 0;
      while i < rows.Length
        invariant 0 <= i <= rows.Length
        invariant forall k :: 0 <= k < i ==> rows[k] == Enriched(old(rows[k]), src)
        invariant forall k :: i <= k < rows.Length ==> rows[k] == old(rows[k])
      {
        var match_ := FirstMatch(rows[i].email, src);
        if match_.Some? {
          rows[i] := rows[i].(details := Some(Extract(src[match_.value])));
        }
        i := i + 1;
      }
    }
  }

  /** The merge never adds, drops or reorders rows, and changes nothing but
      the enrichment columns. */
  lemma MergeKeepsRows(rows: seq<Applicant>, source: Option<seq<SourceRow>>)
    ensures |Merged(rows, source)| == |rows|
    ensures forall i :: 0 <= i < |rows| ==> Merged(rows, source)[i].(details := rows[i].details) == rows[i]
  {
  }

  /** A row without a matching source row is left exactly as it was. */
  lemma UnmatchedRowUnchanged(rows: seq<Applicant>, source: seq<SourceRow>, i: nat)
    requires i < |rows|
    requires forall j :: 0 <= j < |source| ==> !EmailMatches(rows[i].email, source[j])
    ensures Merged(rows, Some(source))[i] == rows[i]
  {
  }

  /** A matched row takes its columns from the first matching source row,
      whatever later rows with the same email hold. */
  lemma MatchedRowTakesFirst(rows: seq<Applicant>, source: seq<SourceRow>, i: nat, k: nat)
    requires i < |rows| && k < |source|
    requires EmailMatches(rows[i].email, source[k])
    requires forall j :: 0 <= j < k ==> !EmailMatches(rows[i].email, source[j])
    ensures Merged(rows, Some(source))[i] == rows[i].(details := Some(Extract(source[k])))
  {
  }

  /** Rows that were within the column limits stay so; in particular rows
      read without enrichment columns end up within them. */
  lemma MergeRespectsLimits(rows: seq<Applicant>, source: Option<seq<SourceRow>>)
    requires forall i :: 0 <= i < |rows| && rows[i].details.Some? ==> WithinLimits(rows[i].details.value)
    ensures forall i :: 0 <= i < |rows| && Merged(rows, source)[i].details.Some? ==>
      WithinLimits(Merged(rows, source)[i].details.value)
  {
  }

  /** A missing source table and an empty one give the same result: the
      evaluation table unchanged. */
  lemma MissingSourceIsEmptySource(rows: seq<Applicant>)
    ensures Merged(rows, None) == Merged(rows, Some([])) == rows
  {
  }

  /** Merging a second time with the same source changes nothing more. */
  lemma MergeIdempotent(rows: seq<Applicant>, source: Option<seq<SourceRow>>)
    ensures Merged(Merged(rows, source), source) == Merged(rows, source)
  {
  }
}
