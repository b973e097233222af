/** One pass of the report: load the file, offer the selectors, filter the
    rows with the user's choices and build the trend table and the top-10
    ranking. */
module Report {

  import opened Wrappers
  import opened Text
  import opened Periods
  import opened Ingest
  import opened Filter
  import opened Aggregate
  import opened Selectors

  /** What the user picked: a code option, the statuses and the two ends of
      the period slider, as keys. */
  datatype Selection = Selection(code: string, statuses: set<string>, startKey: string, endKey: string)

  /** Lines 74-75: the slider's keys are parsed back into timestamps. The
      slider only offers keys of the table, which always parse. */
  function CriteriaOf(sel: Selection): (c: Criteria)
    requires Parse(sel.startKey).Some? && Parse(sel.endKey).Some?
    ensures c.code == sel.code && c.statuses == sel.statuses
    ensures Some(c.start) == Parse(sel.startKey) && Some(c.end) == Parse(sel.endKey)
  {
    Criteria(sel.code, sel.statuses, Parse(sel.startKey).value, Parse(sel.endKey).value)
  }

  /** The two tables the report shows. The trend is absent when the filter
      leaves no row (the warning of line 101). */
  datatype View = View(trend: Option<seq<TrendRow>>, ranking: seq<Ranked>)

  /** Lines 77-104: the trend of the rows that pass every test, and the
      ranking of the rows that pass the status and period tests. */
  function BuildView(df: seq<Row>, c: Criteria): (v: View)
    ensures v.trend.None? <==> Select(df, c, true) == []
    ensures v.trend.Some? ==> v.trend.value == Trend(Select(df, c, true)) && v.trend.value != []
    ensures v.trend.Some? ==> TrendSum(v.trend.value, Billed) == Total(Select(df, c, true), Billed)
    ensures v.ranking == Ranking(Select(df, c, false))
  {
    var filtered := Select(df, c, true);
    TrendEmpty(filtered);
    TrendConservation(filtered, Billed);
    View(if filtered == [] then None else Some(Trend(filtered)), Ranking(Select(df, c, false)))
  }

  /** The ranking is the same whatever code is selected. */
  lemma RankingIgnoresCodeSelector(df: seq<Row>, c: Criteria, code: string)
    ensures BuildView(df, c.(code := code)).ranking == BuildView(df, c).ranking
  {
    RankingViewIgnoresCode(df, c, code);
  }

  /** The selection the page opens with: `"Todos"`, every status, and the
      default period range. */
  function DefaultCriteria(df: seq<Row>): (c: Option<Criteria>)
    requires AllWellFormed(df)
    ensures c.None? <==> df == []
    ensures c.None? <==> PeriodOptions(df) == []
    ensures c.Some? ==> c.value.code == ALL_CODES && c.value.statuses == AllStatuses(df)
    ensures c.Some? ==> Some(c.value.start) == Parse(PeriodOptions(df)[0])
    ensures c.Some? ==> Some(c.value.end) == Parse(PeriodOptions(df)[|PeriodOptions(df)| - 1])
  {
    SortedDistinctEmpty(Values(df, PeriodKey));
    var range := DefaultRange(PeriodOptions(df));
    if range.None? then None
    else
      PeriodOptionCanonical(df, range.value.0);
      PeriodOptionCanonical(df, range.value.1);
      Some(Criteria(ALL_CODES, AllStatuses(df), Parse(range.value.0).value, Parse(range.value.1).value))
  }

  /** The default of the status multiselect: every option. */
  function AllStatuses(df: seq<Row>): (statuses: set<string>)
    ensures forall i :: 0 <= i < |df| ==> df[i].status in statuses
    ensures forall s :: s in statuses <==> s in Values(df, Status)
  {
    assert forall i :: 0 <= i < |df| ==> Values(df, Status)[i] == df[i].status;
    set s | s in StatusOptions(df)
  }

  /** Every period of the table lies in the default range. */
  lemma DefaultRangeAdmits(df: seq<Row>, r: Row)
    requires AllWellFormed(df) && r in df
    ensures PeriodOptions(df) != []
    ensures Parse(PeriodOptions(df)[0]).Some? && Parse(PeriodOptions(df)[|PeriodOptions(df)| - 1]).Some?
    ensures NotAfter(Parse(PeriodOptions(df)[0]).value, r.period)
    ensures NotAfter(r.period, Parse(PeriodOptions(df)[|PeriodOptions(df)| - 1]).value)
  {
    var opts := PeriodOptions(df);
    var i :| 0 <= i < |df| && df[i] == r;
    assert Values(df, PeriodKey)[i] == r.key;
    assert WellFormed(df[i]);
    PeriodOptionCanonical(df, opts[0]);
    PeriodOptionCanonical(df, opts[|opts| - 1]);
    OptionsBoundPeriod(opts, r);
  }

  /** A row whose key is among ascending canonical options has its period
      between those of the first and the last option. */
  lemma OptionsBoundPeriod(opts: seq<string>, r: Row)
    requires StrictlyAscending(opts) && r.key in opts && WellFormed(r)
    requires Canonical(opts[0]) && Canonical(opts[|opts| - 1])
    ensures NotAfter(Parse(opts[0]).value, r.period) && NotAfter(r.period, Parse(opts[|opts| - 1]).value)
  {
    DefaultRangeCovers(opts, r.key);
    KeysBoundPeriod(r, opts[0], opts[|opts| - 1]);
  }

  /** A row whose key lies between two canonical keys has its period
      between theirs. */
  lemma KeysBoundPeriod(r: Row, first: string, last: string)
    requires WellFormed(r) && Canonical(first) && Canonical(last)
    requires LessEq(first, r.key) && LessEq(r.key, last)
    ensures NotAfter(Parse(first).value, r.period) && NotAfter(r.period, Parse(last).value)
  {
    WindowByKeys(r, first, last, Parse(first).value, Parse(last).value);
  }

  /** The opening selection admits every row of the table. */
  lemma DefaultCriteriaAdmits(df: seq<Row>, r: Row)
    requires AllWellFormed(df) && r in df
    ensures DefaultCriteria(df).Some?
    ensures InWindow(r, DefaultCriteria(df).value)
  {
    DefaultRangeAdmits(df, r);
    var i :| 0 <= i < |df| && df[i] == r;
  }

  /** With the opening selection nothing is filtered out. */
  lemma DefaultSelectionKeepsAll(df: seq<Row>)
    requires AllWellFormed(df) && df != []
    ensures DefaultCriteria(df).Some?
    ensures Select(df, DefaultCriteria(df).value, true) == df
  {
    var c := DefaultCriteria(df).value;
    forall i | 0 <= i < |df|
      ensures InWindow(df[i], c)
    {
      DefaultCriteriaAdmits(df, df[i]);
    }
    SelectAll(df, c, true);
  }

  /** What the page shows for an upload. */
  datatype Screen = LoadError | NoData | Shown(view: View)

  /** The page for an uploaded file and a selection; an empty table gets
      the no-data screen instead of a slider. */
  function Render(book: Workbook, sel: Selection): (s: Screen)
    requires Parse(sel.startKey).Some? && Parse(sel.endKey).Some?
    ensures s.LoadError? <==> Load(book).None?
    ensures s.NoData? <==> Load(book) == Some([])
    ensures s.Shown? ==> s.view == BuildView(Load(book).value, CriteriaOf(sel))
  {
    match Load(book)
    case None => LoadError
    case Some(df) =>
      SortedDistinctEmpty(Values(df, PeriodKey));
      if DefaultRange(PeriodOptions(df)).None? then NoData
      else Shown(BuildView(df, CriteriaOf(sel)))
  }
}
