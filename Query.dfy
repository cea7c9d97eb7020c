/** The table the dashboard lists: the evaluation rows narrowed by the five
    sidebar filters, in the order the source applies them, then sorted by the
    chosen column. */
module Query {
  import opened Wrappers
  import opened Text
  import opened Applicants

  /** `r` is `s` with some elements dropped and the rest kept in order. */
  ghost predicate IsSubsequence<T>(r: seq<T>, s: seq<T>)
    decreases |s|
  {
    |r| == 0 || (|s| > 0 && ((r[0] == s[0] && IsSubsequence(r[1..], s[1..])) || IsSubsequence(r, s[1..])))
  }

  /** `df[mask]`: the rows that satisfy `p`, in their original order. */
  function Filter<T(!new)>(s: seq<T>, p: T -> bool): (r: seq<T>)
    ensures |r| <= |s|
    ensures forall x :: x in r <==> x in s && p(x)
    ensures forall i :: 0 <= i < |r| ==> p(r[i])
  {
    if |s| == 0 then []
    else if p(s[0]) then [s[0]] + Filter(s[1..], p)
    else Filter(s[1..], p)
  }

  lemma {:induction false} FilterIsSubsequence<T(!new)>(s: seq<T>, p: T -> bool)
    ensures IsSubsequence(Filter(s, p), s)
  {
    if |s| > 0 {
      FilterIsSubsequence(s[1..], p);
      var r := Filter(s, p);
      if p(s[0]) {
        assert r[0] == s[0] && r[1..] == Filter(s[1..], p);
      }
    }
  }

  /** Filters count each row as often as it occurs, when it passes. */
  lemma {:induction false} FilterCounts<T(!new)>(s: seq<T>, p: T -> bool)
    ensures forall x :: multiset(Filter(s, p))[x] == if p(x) then multiset(s)[x] else 0
  {
    if |s| > 0 {
      FilterCounts(s[1..], p);
      assert s == [s[0]] + s[1..];
    }
  }

  /** A filter every row passes keeps the table as it is. */
  lemma {:induction false} FilterKeepsAll<T(!new)>(s: seq<T>, p: T -> bool)
    requires forall i :: 0 <= i < |s| ==> p(s[i])
    ensures Filter(s, p) == s
  {
    if |s| > 0 {
      FilterKeepsAll(s[1..], p);
      assert s == [s[0]] + s[1..];
    }
  }

  /** Two filters in a row are one filter on both conditions. */
  lemma {:induction false} FilterFuse<T(!new)>(s: seq<T>, p: T -> bool, q: T -> bool, both: T -> bool)
    requires forall x :: both(x) == (p(x) && q(x))
    ensures Filter(Filter(s, p), q) == Filter(s, both)
  {
    if |s| > 0 {
      FilterFuse(s[1..], p, q, both);
      if p(s[0]) {
        assert Filter(s, p) == [s[0]] + Filter(s[1..], p);
        assert Filter(s, p)[1..] == Filter(s[1..], p);
      }
    }
  }

  /** Filtering twice by the same condition filters once. */
  lemma FilterIdempotent<T(!new)>(s: seq<T>, p: T -> bool)
    ensures Filter(Filter(s, p), p) == Filter(s, p)
  {
    FilterKeepsAll(Filter(s, p), p);
  }

  /** The value a selector holds when it filters nothing. */
  const All := "All"

  /** The sidebar selection: the three drop-downs, the search text (empty
      means no search) and the "strong science only" box. */
  datatype Criteria = Criteria(recommendation: string, scienceLevel: string, stage: string, search: string, scienceOnly: bool)

  /** Every selector left at its initial value. */
  const Unfiltered := Criteria(All, All, All, "", false)

  /** `str.contains(search, case=False, na=False)` on one column. */
  predicate CellMatches(cell: Option<string>, search: string) {
    cell.Some? && ContainsIgnoringCase(cell.value, search)
  }

  /** A missing cell never matches, whatever is searched for. */
  lemma MissingCellNeverMatches(search: string)
    ensures !CellMatches(None, search)
  {
  }

  /** Case plays no part on either side: a cell matches a search exactly when
      its lower-case form matches the lower-case search. */
  lemma SearchIgnoresCase(cell: string, search: string)
    ensures CellMatches(Some(cell), search) <==> CellMatches(Some(Lower(cell)), Lower(search))
  {
    LowerIdempotent(cell);
    LowerIdempotent(search);
  }

  /** Searching "ocean" finds the location "Ocean Bay". */
  lemma SearchOceanFindsOceanBay()
    ensures CellMatches(Some("Ocean Bay"), "ocean")
  {
    assert Lower("ocean") == "ocean";
    assert Lower("Ocean Bay")[..5] == "ocean";
    assert OccursAt(Lower("Ocean Bay"), Lower("ocean"), 0);
  }

  /** The search hits the venture name, the description or the location. */
  predicate MatchesSearch(a: Applicant, search: string) {
    CellMatches(a.ventureName, search) || CellMatches(a.whatTheyDo, search) || CellMatches(a.location, search)
  }

  /** The "strong science only" test: the level shows "★★" somewhere. */
  predicate StrongScience(a: Applicant) {
    Contains(a.scienceLevel, "★★")
  }

  /** The masks of the three drop-downs and of the search. A missing stage
      equals no selected stage. */
  function RecommendationIs(value: string): Applicant -> bool {
    (a: Applicant) => a.recommendation == value
  }

  function ScienceLevelIs(value: string): Applicant -> bool {
    (a: Applicant) => a.scienceLevel == value
  }

  function StageIs(value: string): Applicant -> bool {
    (a: Applicant) => a.stage == Some(value)
  }

  function SearchHits(search: string): Applicant -> bool {
    (a: Applicant) => MatchesSearch(a, search)
  }

  /** `if active: filtered_df = filtered_df[mask]`. */
  function Step(s: seq<Applicant>, active: bool, mask: Applicant -> bool): seq<Applicant> {
    if active then Filter(s, mask) else s
  }

  /** The five filters as the source applies them, each one on what the
      previous one left. */
  function ApplyFilters(rows: seq<Applicant>, c: Criteria): (r: seq<Applicant>)
    ensures |r| <= |rows|
  {
    var byRec := Step(rows, c.recommendation != All, RecommendationIs(c.recommendation));
    var byLevel := Step(byRec, c.scienceLevel != All, ScienceLevelIs(c.scienceLevel));
    var byStage := Step(byLevel, c.stage != All, StageIs(c.stage));
    var bySearch := Step(byStage, |c.search| > 0, SearchHits(c.search));
    Step(bySearch, c.scienceOnly, StrongScience)
  }

  /** One row against the whole selection: every active filter accepts it. */
  predicate Passes(c: Criteria, a: Applicant) {
    (c.recommendation == All || a.recommendation == c.recommendation) &&
    (c.scienceLevel == All || a.scienceLevel == c.scienceLevel) &&
    (c.stage == All || a.stage == Some(c.stage)) &&
    (|c.search| == 0 || MatchesSearch(a, c.search)) &&
    (!c.scienceOnly || StrongScience(a))
  }

  /** `Passes` as a mask. */
  function Selection(c: Criteria): Applicant -> bool {
    (a: Applicant) => Passes(c, a)
  }

  /** One more step on a filtered table is one filter by both conditions. */
  lemma StepFuse(rows: seq<Applicant>, s: seq<Applicant>, before: Applicant -> bool, active: bool,
                 mask: Applicant -> bool, after: Applicant -> bool)
    requires s == Filter(rows, before)
    requires forall a :: after(a) == (before(a) && (!active || mask(a)))
    ensures Step(s, active, mask) == Filter(rows, after)
  {
    if active {
      FilterFuse(rows, before, mask, after);
    } else {
      FilterExt(rows, before, after);
    }
  }

  /** The pipeline keeps exactly the rows that pass every active filter,
      in their original order: it is one filter by the conjunction. */
  lemma ApplyFiltersIsOneFilter(rows: seq<Applicant>, c: Criteria)
    ensures ApplyFilters(rows, c) == Filter(rows, Selection(c))
  {
    var p0 := (a: Applicant) => true;
    var p1 := (a: Applicant) => c.recommendation == All || a.recommendation == c.recommendation;
    var p2 := (a: Applicant) => p1(a) && (c.scienceLevel == All || a.scienceLevel == c.scienceLevel);
    var p3 := (a: Applicant) => p2(a) && (c.stage == All || a.stage == Some(c.stage));
    var p4 := (a: Applicant) => p3(a) && (|c.search| == 0 || MatchesSearch(a, c.search));
    FilterKeepsAll(rows, p0);
    var byRec := Step(rows, c.recommendation != All, RecommendationIs(c.recommendation));
    StepFuse(rows, rows, p0, c.recommendation != All, RecommendationIs(c.recommendation), p1);
    var byLevel := Step(byRec, c.scienceLevel != All, ScienceLevelIs(c.scienceLevel));
    StepFuse(rows, byRec, p1, c.scienceLevel != All, ScienceLevelIs(c.scienceLevel), p2);
    var byStage := Step(byLevel, c.stage != All, StageIs(c.stage));
    StepFuse(rows, byLevel, p2, c.stage != All, StageIs(c.stage), p3);
    var bySearch := Step(byStage, |c.search| > 0, SearchHits(c.search));
    StepFuse(rows, byStage, p3, |c.search| > 0, SearchHits(c.search), p4);
    StepFuse(rows, bySearch, p4, c.scienceOnly, StrongScience, Selection(c));
  }

  /** Filters by conditions that agree on every row are the same filter. */
  lemma {:induction false} FilterExt<T(!new)>(s: seq<T>, p: T -> bool, q: T -> bool)
    requires forall x :: p(x) == q(x)
    ensures Filter(s, p) == Filter(s, q)
  {
    if |s| > 0 {
      FilterExt(s[1..], p, q);
    }
  }

  /** Two searches that differ only in case list the same rows. */
  lemma SearchCaseIrrelevant(rows: seq<Applicant>, c: Criteria, search: string)
    requires Lower(c.search) == Lower(search)
    ensures ApplyFilters(rows, c) == ApplyFilters(rows, c.(search := search))
  {
    var d := c.(search := search);
    ApplyFiltersIsOneFilter(rows, c);
    ApplyFiltersIsOneFilter(rows, d);
    assert |c.search| == |Lower(c.search)| == |search|;
    FilterExt(rows, Selection(c), Selection(d));
  }

  /** What the pipeline promises row by row: the result keeps the input's
      order, and holds a row exactly when the input does and it passes every
      active filter, as often as the input holds it. */
  lemma ApplyFiltersSelects(rows: seq<Applicant>, c: Criteria)
    ensures IsSubsequence(ApplyFilters(rows, c), rows)
    ensures forall a :: a in ApplyFilters(rows, c) <==> a in rows && Passes(c, a)
    ensures forall a :: multiset(ApplyFilters(rows, c))[a] == if Passes(c, a) then multiset(rows)[a] else 0
  {
    ApplyFiltersIsOneFilter(rows, c);
    FilterIsSubsequence(rows, Selection(c));
    FilterCounts(rows, Selection(c));
  }

  /** With every selector at "All", no search and the box unticked, the
      table is shown as it is. */
  lemma UnfilteredKeepsAll(rows: seq<Applicant>)
    ensures ApplyFilters(rows, Unfiltered) == rows
  {
  }

  /** The "strong science only" box applied twice is the box applied once. */
  lemma StrongScienceIdempotent(rows: seq<Applicant>)
    ensures Filter(Filter(rows, StrongScience), StrongScience) == Filter(rows, StrongScience)
  {
    FilterIdempotent(rows, StrongScience);
  }

  /** Re-applying the same selection to its own result changes nothing. */
  lemma ApplyFiltersIdempotent(rows: seq<Applicant>, c: Criteria)
    ensures ApplyFilters(ApplyFilters(rows, c), c) == ApplyFilters(rows, c)
  {
    ApplyFiltersIsOneFilter(rows, c);
    ApplyFiltersIsOneFilter(ApplyFilters(rows, c), c);
    FilterIdempotent(rows, Selection(c));
  }

  /** The "Sort by" choices. */
  datatype SortColumn = WeightedScore | InnovationScore | ImpactScore | VentureName

  function ScoreOf(col: SortColumn, a: Applicant): real
    requires col != VentureName
  {
    match col
    case WeightedScore => a.weightedScore.value
    case InnovationScore => a.innovation.value
    case ImpactScore => a.impact.value
  }

  /** Ascending names with missing names last, as `sort_values` places NaN. */
  predicate NameLe(x: Option<string>, y: Option<string>) {
    match (x, y)
    case (Some(s), Some(t)) => LexLe(s, t)
    case (Some(_), None) => true
    case (None, None) => true
    case (None, Some(_)) => false
  }

  /** `a` may be listed before `b`: names ascend, scores descend. */
  predicate Precedes(col: SortColumn, a: Applicant, b: Applicant) {
    if col == VentureName then NameLe(a.ventureName, b.ventureName)
    else ScoreOf(col, a) >= ScoreOf(col, b)
  }

  lemma PrecedesTotal(col: SortColumn, a: Applicant, b: Applicant)
    ensures Precedes(col, a, b) || Precedes(col, b, a)
  {
    if col == VentureName && a.ventureName.Some? && b.ventureName.Some? {
      LexLeTotal(a.ventureName.value, b.ventureName.value);
    }
  }

  lemma PrecedesTransitive(col: SortColumn, a: Applicant, b: Applicant, d: Applicant)
    requires Precedes(col, a, b) && Precedes(col, b, d)
    ensures Precedes(col, a, d)
  {
    if col == VentureName && a.ventureName.Some? && b.ventureName.Some? && d.ventureName.Some? {
      LexLeTransitive(a.ventureName.value, b.ventureName.value, d.ventureName.value);
    }
  }

  /** Every row may be listed before every later row. */
  predicate Sorted(col: SortColumn, s: seq<Applicant>) {
    forall i, j :: 0 <= i < j < |s| ==> Precedes(col, s[i], s[j])
  }

  /** `x` may be listed before every row of `s`. */
  lemma PrecedesAllOf(col: SortColumn, x: Applicant, s: seq<Applicant>)
    requires |s| > 0 && Sorted(col, s) && Precedes(col, x, s[0])
    ensures forall y :: y in s ==> Precedes(col, x, y)
  {
    forall y | y in s
      ensures Precedes(col, x, y)
    {
      var k :| 0 <= k < |s| && s[k] == y;
      if k > 0 {
        PrecedesTransitive(col, x, s[0], y);
      }
    }
  }

  lemma SortedCons(col: SortColumn, x: Applicant, s: seq<Applicant>)
    requires Sorted(col, s) && forall y :: y in s ==> Precedes(col, x, y)
    ensures Sorted(col, [x] + s)
  {
    var r := [x] + s;
    forall i, j | 0 <= i < j < |r|
      ensures Precedes(col, r[i], r[j])
    {
      if i > 0 {
        assert r[i] == s[i - 1] && r[j] == s[j - 1];
      } else {
        assert r[j] in s;
      }
    }
  }

  /** `x` placed among the sorted rows `s`, before the first row it may precede. */
  function Insert(col: SortColumn, x: Applicant, s: seq<Applicant>): (r: seq<Applicant>)
    requires Sorted(col, s)
    ensures multiset(r) == multiset(s) + multiset{x}
    ensures Sorted(col, r)
  {
    if |s| == 0 then [x]
    else if Precedes(col, x, s[0]) then
      PrecedesAllOf(col, x, s);
      SortedCons(col, x, s);
      [x] + s
    else
      PrecedesTotal(col, x, s[0]);
      var t := Insert(col, x, s[1..]);
      HeadPrecedesInsert(col, x, s, t);
      SortedCons(col, s[0], t);
      assert s == [s[0]] + s[1..];
      [s[0]] + t
  }

  /** The head of the sorted rows may precede every row of the rest with `x`
      inserted, once it may precede `x`. */
  lemma HeadPrecedesInsert(col: SortColumn, x: Applicant, s: seq<Applicant>, t: seq<Applicant>)
    requires |s| > 0 && Sorted(col, s) && Precedes(col, s[0], x)
    requires multiset(t) == multiset(s[1..]) + multiset{x}
    ensures forall y :: y in t ==> Precedes(col, s[0], y)
  {
    forall y | y in t
      ensures Precedes(col, s[0], y)
    {
      assert y in multiset(t);
      if y != x {
        assert y in multiset(s[1..]);
        var k :| 0 <= k < |s[1..]| && s[1..][k] == y;
        assert s[k + 1] == y;
      }
    }
  }

  /** `sort_values(col, ascending=(col == 'Venture_Name'))`: the same rows,
      listed in the chosen order. */
  function SortRows(col: SortColumn, s: seq<Applicant>): (r: seq<Applicant>)
    ensures multiset(r) == multiset(s)
    ensures Sorted(col, r)
  {
    if |s| == 0 then []
    else
      assert s == [s[0]] + s[1..];
      Insert(col, s[0], SortRows(col, s[1..]))
  }

  /** The listing under the "Applicants" heading. */
  function Listing(rows: seq<Applicant>, c: Criteria, col: SortColumn): (r: seq<Applicant>)
    ensures |r| <= |rows|
  {
    var shown := ApplyFilters(rows, c);
    assert |multiset(SortRows(col, shown))| == |multiset(shown)|;
    SortRows(col, shown)
  }

  /** The listing holds each row that passes the selection as often as the
      table does, and nothing else, in the chosen order. */
  lemma ListingShowsSelection(rows: seq<Applicant>, c: Criteria, col: SortColumn)
    ensures forall a :: multiset(Listing(rows, c, col))[a] == if Passes(c, a) then multiset(rows)[a] else 0
    ensures Sorted(col, Listing(rows, c, col))
  {
    ApplyFiltersSelects(rows, c);
  }
}
