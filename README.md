# TCCF Bold Ideas evaluation dashboard — verified model of its core

The dashboard lists applicants to the TCCF Bold Ideas programme (plastic-waste
ventures) with their scored evaluation. This project models, in Dafny, the parts
of `streamlit_app.py` that decide what is shown:

- **Recommendation and science classifiers** (`Classify`). `get_recommendation_color`
  is a seven-way cascade over the recommendation tag. `get_science_emoji` is a
  five-way cascade over the science-level tag. Each is modelled as a tier datatype
  plus the colour or icon of each tier.
- **Evaluation summary** (`Summary`). `generate_eval_summary` picks one of five
  narrative templates from the tag. It fills in the venture name, description and
  both scores. For the strongest template only, it appends a sentence on the
  projected plastic tonnage when `float(plastic) > 100`. A tonnage that does not
  parse is swallowed by the `try`/`except`. `Decimal` models `float()` for plain
  decimal text.
- **Enrichment merge** (`Merge`). The loop in `load_data` copies seven columns onto
  each evaluation row from the first row of the application database with the
  same email. Five of the columns are cut to 1000, 600, 500, 400 and 600
  characters. It is modelled as a method updating an `array` of rows in place,
  proved against the function `Merged`.
- **Filter and sort pipeline** (`Query`). Five sidebar filters are applied one
  after another: recommendation, science level, stage, search text and "strong
  science only". `sort_values` then orders the rows by the chosen column. Both are
  modelled as pure sequence functions.

`Applicants` holds the row types, `Text` the string helpers (substring search,
ASCII case folding, Python's `s[:n]` and string order), and `Scenario` carries
one concrete applicant through the summary.

Missing (NaN) cells are `Option<string>`. A score is its numeric value, used for
sorting, together with the text Python prints for it, used in the summary. The
two tables read from CSV files are parameters. So are the sidebar selection
(`Criteria`) and the chosen sort column.

Three behaviours of the code that are easy to misread:

- The "strong science only" box is labelled "★★★ or ★★☆", but the code tests
  whether the level contains "★★". That test is wider than the label: the level
  "★★" passes although its tier is Unknown (`Classify.ScienceMarkerWiderThanTopTiers`).
  The filter is modelled as the code has it.
- For a matched row, a missing source cell is written as `''`.
- In `generate_eval_summary`, "LOW PRIORITY" has no branch of its own. It gets the
  does-not-meet-threshold template, as unknown tags do.

## Model

| member | source | states |
|---|---|---|
| Classify.RecommendationTier | streamlit_app.py:198-212 | The cascade of `get_recommendation_color` as a tier: first match wins, in the source's order. Its order-free description is `RecommendationTierExactly`. |
| Classify.RecommendationColor | streamlit_app.py:198-212 | `get_recommendation_color`: the colour of the tag's tier, always one of the seven badge colours. |
| Classify.RecommendationTierExactly | streamlit_app.py:198-212 | Each of the seven tiers is described by a condition on the tag alone, as an if-and-only-if. "STRONGLY" anywhere in the tag gives the top tier. The four exact tags match only by equality. "MAYBE" loses only to "STRONGLY". Every other tag falls through to the last tier. |
| Classify.RecommendationColorCases | streamlit_app.py:198-212 | `#00d4aa` is returned exactly for tags containing "STRONGLY". Each of `#4fffdb`, `#7dd3fc`, `#fbbf24` and `#f87171` is returned exactly for its one tag. `#fb923c` is returned exactly for tags containing "MAYBE" but not "STRONGLY". `#ef4444` is returned exactly for tags matching no branch. |
| Classify.ColorsDistinct | streamlit_app.py:198-212 | The seven colours are pairwise distinct, so the colour identifies the tier. |
| Classify.ExactTagsHaveNoMarker | streamlit_app.py:200-210 | None of the four exactly-matched tags contains "STRONGLY" or "MAYBE", so each one reaches its own branch. |
| Classify.StronglyBeforeRecommend | streamlit_app.py:200-203 | "★ STRONGLY RECOMMEND" takes the first branch, not the "★ RECOMMEND" branch. |
| Classify.ScienceTierOf | streamlit_app.py:215-225 | The cascade of `get_science_emoji` as a tier: the first of "★★★", "★★☆", "★☆☆", "☆☆☆" found in the level. |
| Classify.ScienceEmoji | streamlit_app.py:215-225 | `get_science_emoji`: the icon of the level's tier, always one of five icons. |
| Classify.ScienceTierFirstMatch | streamlit_app.py:215-225 | Each tier holds exactly when its pattern occurs and no earlier pattern does. The fallback `❓` is returned exactly when none of the four patterns occurs. |
| Classify.TopTiersCarryScienceMarker | streamlit_app.py:217-220 | Every level in the two top science tiers contains "★★", so it passes the strong-science filter. |
| Classify.ScienceMarkerWiderThanTopTiers | streamlit_app.py:352-353 | The converse fails: "★★" contains the marker but its tier is Unknown. |
| Summary.TemplateFor | streamlit_app.py:237-262 | The template the tag selects, first match wins in the source's order. Its relation to the colour tiers is `TemplateFollowsTier`. |
| Summary.GenerateSummary | streamlit_app.py:228-268 | `generate_eval_summary`: the template's sentences filled in with the name, description and both scores, then the plastic clause. Its properties are the lemmas below. |
| Summary.TemplateFollowsTier | streamlit_app.py:237-266 | The summary's template is a function of the colour tier. Strong-innovation serves the top two tiers, then promising, some-elements and limited-differentiation. LOW PRIORITY and unknown tags share the threshold template. |
| Summary.SummaryShape | streamlit_app.py:237-266 | Every summary begins with the bold venture name followed by its template's framing. It contains the weighted score as `**{score}/5.0**` and the innovation score as `{innovation}/5`. |
| Summary.PlasticSentenceWhenOver100 | streamlit_app.py:242-246 | With the strong template and a tonnage that parses above 100, the summary is the tonnage-free summary followed by the plastic sentence. That sentence quotes `**{plastic} tonnes**`. |
| Summary.PlasticIgnoredOtherwise | streamlit_app.py:242-246 | In every other case the summary equals the one for a missing tonnage. |
| Summary.UnparsableTonnageSwallowed | streamlit_app.py:242-246 | A tonnage that `float()` rejects leaves the summary unchanged and raises nothing. |
| Summary.PlasticOnlyInStrongTemplate | streamlit_app.py:247-266 | With any other template, the summary does not depend on the tonnage at all. |
| Decimal.ParseNumber | streamlit_app.py:243 | `float(plastic)` on plain decimal text: surrounding whitespace stripped, optional sign, digits with an optional fraction. `None` where `float()` raises. The whitespace is ASCII tab, line feed, vertical tab, form feed, carriage return and space, plus non-ASCII Unicode whitespace. |
| Decimal.ParseShowNat | streamlit_app.py:243 | `float()` reads back the text Python prints for a whole number, e.g. `150`, as that number. |
| Decimal.ParseShowNatPointZero | streamlit_app.py:243 | `float()` also reads back `150.0`, the text printed for a whole float, as that number. |
| Decimal.NoBreakSpaceStripped | streamlit_app.py:243 | A whole number followed by a no-break space parses as that number, as `float()` strips non-ASCII Unicode whitespace. |
| Decimal.SeparatorNotStripped | streamlit_app.py:243-246 | A whole number followed by the separator U+001C does not parse: `float()` does not strip the ASCII separators U+001C to U+001F, so the tonnage sentence is skipped. |
| Decimal.NotANumber | streamlit_app.py:243-246 | `N/A`, the empty text and a lone `.` are rejected by `float()`. |
| Merge.FirstMatch | streamlit_app.py:183-186 | The index picked is the least one whose email equals the row's. When nothing is picked, no source row matches. A missing email matches nothing. |
| Merge.Extract | streamlit_app.py:187-193 | Science inputs, bold characteristics, problem, beneficiaries and team are exactly the first 1000, 600, 500, 400 and 600 characters of the source text, or all of it when shorter. LinkedIn and website are copied whole. A missing cell becomes `''`. |
| Merge.CutToUnique | streamlit_app.py:187-191 | A prefix of a given length is unique, so those columns are fully determined by the source text. |
| Merge.Enriched | streamlit_app.py:184-193 | One row after the merge: the columns of its first email match, or the row unchanged. Only the enrichment columns can differ from the row before. |
| Merge.Merged | streamlit_app.py:181-193 | The table after the merge: every row enriched from the source, the same number of rows; no source, no change. |
| Merge.MergeInPlace | streamlit_app.py:181-193 | The rows in the array after the loop are the merge of the rows before it. Without a source table they are unchanged. |
| Merge.MergeKeepsRows | streamlit_app.py:181-193 | The merge neither adds, removes nor reorders rows. It changes no column but the enrichment columns. |
| Merge.UnmatchedRowUnchanged | streamlit_app.py:183-185 | A row whose email has no match is left exactly as it was. |
| Merge.MatchedRowTakesFirst | streamlit_app.py:185-186 | A matched row takes the columns of the first matching source row, whatever later rows with the same email hold. |
| Merge.MergeRespectsLimits | streamlit_app.py:187-191 | After the merge every enrichment column is within its length limit, given that the rows did not exceed the limits before. |
| Merge.MissingSourceIsEmptySource | streamlit_app.py:181 | A missing source table and an empty one both leave the table as it is. |
| Merge.MergeIdempotent | streamlit_app.py:181-193 | Merging again with the same source changes nothing. |
| Query.Filter | streamlit_app.py:336 | A mask keeps exactly the rows that satisfy it and never adds rows. |
| Query.FilterIsSubsequence | streamlit_app.py:336 | A mask keeps the surviving rows in their original order. |
| Query.FilterCounts | streamlit_app.py:336 | A mask keeps every copy of a passing row and no copy of a failing one. |
| Query.FilterFuse | streamlit_app.py:335-342 | Two masks applied in a row are one mask on their conjunction. |
| Query.FilterIdempotent | streamlit_app.py:352-353 | Applying the same mask twice is applying it once. |
| Query.ApplyFilters | streamlit_app.py:333-353 | The five conditional filters, in the source's order, each on what the previous one left. The result is never longer than the input. |
| Query.Passes | streamlit_app.py:335-353 | One row against the selection: every active filter accepts it. A missing stage never equals a selected stage. |
| Query.MatchesSearch | streamlit_app.py:344-350 | The search hits the venture name, the description or the location, ignoring case, with missing cells never matching. |
| Query.MissingCellNeverMatches | streamlit_app.py:345-348 | A missing cell never matches any search (`na=False`). |
| Query.SearchIgnoresCase | streamlit_app.py:345-348 | A cell matches a search exactly when its lower-case form matches the lower-case search (`case=False`). |
| Query.SearchCaseIrrelevant | streamlit_app.py:344-350 | Two searches that differ only in case list the same rows. |
| Query.SearchOceanFindsOceanBay | streamlit_app.py:345-348 | Searching "ocean" finds "Ocean Bay". |
| Query.ApplyFiltersIsOneFilter | streamlit_app.py:333-353 | The five steps, applied in the source's order, equal one filter by `Passes`: every active filter accepts the row. |
| Query.ApplyFiltersSelects | streamlit_app.py:333-353 | The result is a subsequence of the input. A row is in it exactly when the input holds it and it passes every active filter, as many times as the input holds it. |
| Query.UnfilteredKeepsAll | streamlit_app.py:290-305 | With every selector at "All", an empty search and the box unticked, the table is returned unchanged. |
| Query.StrongScienceIdempotent | streamlit_app.py:352-353 | The "strong science only" filter is idempotent. |
| Query.ApplyFiltersIdempotent | streamlit_app.py:333-353 | Applying the same selection to its own result changes nothing. |
| Query.PrecedesTotal | streamlit_app.py:436 | Any two rows are comparable under the chosen order. |
| Query.PrecedesTransitive | streamlit_app.py:436 | The chosen order is transitive. Names go up in code-point order with missing names last. Scores go down. |
| Query.Insert | streamlit_app.py:436 | Inserting a row into sorted rows gives sorted rows that hold that row once more. |
| Query.SortRows | streamlit_app.py:436 | The sorted rows are a permutation of the input. Every row may precede every later one: names ascend, scores descend. |
| Query.Listing | streamlit_app.py:333-436 | The rows shown under "Applicants": the filtered rows sorted by the chosen column. It is never longer than the table. |
| Query.ListingShowsSelection | streamlit_app.py:333-436 | The listing holds each passing row as many times as the table does and nothing else, in the chosen order. |
| Text.Truncate | streamlit_app.py:187-191 | Python's `s[:n]`: the prefix of exactly `n` characters, or the whole text when it is shorter. |
| Text.LexLeTotal | streamlit_app.py:436 | Python's string order is total. |
| Text.LexLeTransitive | streamlit_app.py:436 | Python's string order is transitive. |
| Text.LexLeAntisymmetric | streamlit_app.py:436 | Python's string order is antisymmetric. |
| Scenario.SampleIsStrong | streamlit_app.py:237 | "★ STRONGLY RECOMMEND" gets the strong-innovation template. |
| Scenario.OneFiftyTonnes | streamlit_app.py:243 | The tonnage "150" passes the `> 100` test. |
| Scenario.EightyTonnes | streamlit_app.py:243 | The tonnage "80" does not pass the `> 100` test. |
| Scenario.SampleSummary | streamlit_app.py:237-246 | The sample's summary ends with the 150-tonne sentence. |
| Scenario.SampleWithoutTonnage | streamlit_app.py:242-246 | With "N/A" or "80" tonnes, the sample's summary has no tonnage sentence. |

## Left out

- The Streamlit page, CSS, sidebar widgets, expanders, metrics and charts (plotly) are presentation. The sidebar's values enter as `Criteria`.
- Reading the CSV files, the path fallbacks and `@st.cache_data` are file I/O and caching. Both tables are parameters.
- Float arithmetic is not modelled: the average score, the bar percentage and `:.2f` formatting. A score's printed text is carried as given.
- Display-time truncations and link rendering in the detail view are presentation only.
- Decimal.ParseNumber: exponents, `inf`/`nan`, underscores and non-ASCII digits are not modelled; that text is treated as a parse failure. Binary rounding is not modelled either; values are exact reals. Whitespace is stripped as `float()` does: ASCII tab, line feed, vertical tab, form feed, carriage return and space, and the non-ASCII characters `str.isspace` accepts, but not the separators U+001C to U+001F.
- Query.MatchesSearch: `str.contains` treats the search text as a regular expression and folds case by Unicode rules. The model uses a literal substring with ASCII-only case folding.
- Query.SortRows: pandas' sort is not promised to be stable, so the order among rows with equal keys is left open. NaN scores are not modelled; score values are always numbers.
- A missing (NaN) recommendation tag makes `'STRONGLY' in rec` raise in `generate_eval_summary`. The model takes the tag as text.
- `str(orig.get(...))` on a numeric cell prints the number; the model takes source cells as text.
- Pandas index labels are not modelled: rows are addressed by position, and `eval_df.loc[idx, ...]` is taken to write the row being visited.
