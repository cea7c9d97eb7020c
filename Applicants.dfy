/** The applicant records the dashboard works on: one row of the scored
    evaluation table, and one row of the original application database that
    enriches it. A cell pandas reads as missing (NaN) is `None`. */
module Applicants {
  import opened Wrappers

  /** A score column: its numeric value, used for sorting, and the text Python
      prints for it, used in the summary. */
  datatype Score = Score(value: real, text: string)

  /** The seven columns the merge writes onto a matched evaluation row. */
  datatype Enrichment = Enrichment(
    scienceInputs: string,
    boldCharacteristics: string,
    problemAddressed: string,
    beneficiaries: string,
    teamInfo: string,
    linkedIn: string,
    website: string)

  /** One row of the evaluation table. `details` holds the enrichment columns,
      `None` while the row has not been matched. */
  datatype Applicant = Applicant(
    email: Option<string>,
    ventureName: Option<string>,
    whatTheyDo: Option<string>,
    location: Option<string>,
    stage: Option<string>,
    recommendation: string,
    scienceLevel: string,
    weightedScore: Score,
    innovation: Score,
    impact: Score,
    plastic: Option<string>,
    details: Option<Enrichment>)

  /** One row of the original application database, by its column names. */
  datatype SourceRow = SourceRow(
    email: Option<string>,
    scienceInputs: Option<string>,
    boldCharacteristics: Option<string>,
    problemAddressed: Option<string>,
    beneficiaries: Option<string>,
    team: Option<string>,
    linkedIn: Option<string>,
    website: Option<string>)

  /** What an f-string prints for a cell: its text, or `nan` when missing. */
  function Rendered(cell: Option<string>): string {
    match cell
    case Some(t) => t
    case None => "nan"
  }
}
