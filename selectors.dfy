/** The choices the report offers once a file is loaded: the service-code
    selector, the status multiselect and the period slider with its default
    range. */
module Selectors {

  import opened Wrappers
  import opened Text
  import opened Periods
  import opened Ingest
  import opened Filter

  /** `["Todos"] + sorted(df['CODSERV'].unique())`. */
  function CodeOptions(df: seq<Row>): (opts: seq<string>)
    ensures |opts| == 1 + |SortedDistinct(Values(df, ServiceCode))|
    ensures opts[0] == ALL_CODES
    ensures StrictlyAscending(opts[1..])
    ensures forall x :: x in opts[1..] <==> x in Values(df, ServiceCode)
  {
    var codes := SortedDistinct(Values(df, ServiceCode));
    assert ([ALL_CODES] + codes)[1..] == codes;
    [ALL_CODES] + codes
  }

  /** `sorted(df['ESTADO'].unique())`, also the default selection. */
  function StatusOptions(df: seq<Row>): (opts: seq<string>)
    ensures StrictlyAscending(opts)
    ensures forall x :: x in opts <==> x in Values(df, Status)
  {
    SortedDistinct(Values(df, Status))
  }

  /** `sorted(df['PERIODO_FMT'].unique())`. */
  function PeriodOptions(df: seq<Row>): (opts: seq<string>)
    ensures StrictlyAscending(opts)
    ensures forall x :: x in opts <==> x in Values(df, PeriodKey)
  {
    SortedDistinct(Values(df, PeriodKey))
  }

  /** Every period option of a loaded table is a canonical key. */
  lemma PeriodOptionCanonical(df: seq<Row>, k: string)
    requires AllWellFormed(df) && k in PeriodOptions(df)
    ensures Canonical(k)
  {
    var i :| 0 <= i < |df| && Values(df, PeriodKey)[i] == k;
    ParseFormat(df[i].period);
  }

  /** Every period option parses back to the period of a row. */
  lemma PeriodOptionParses(df: seq<Row>, k: string)
    requires AllWellFormed(df) && k in PeriodOptions(df)
    ensures exists r :: r in df && Parse(k) == Some(r.period)
  {
    var i :| 0 <= i < |df| && Values(df, PeriodKey)[i] == k;
    ParseFormat(df[i].period);
  }

  /** The period options run forward in time, one option per month. */
  lemma PeriodOptionsChronological(df: seq<Row>, i: int, j: int)
    requires AllWellFormed(df)
    requires 0 <= i < j < |PeriodOptions(df)|
    ensures Parse(PeriodOptions(df)[i]).Some? && Parse(PeriodOptions(df)[j]).Some?
    ensures NotAfter(Parse(PeriodOptions(df)[i]).value, Parse(PeriodOptions(df)[j]).value)
    ensures Parse(PeriodOptions(df)[i]).value != Parse(PeriodOptions(df)[j]).value
  {
    var opts := PeriodOptions(df);
    assert opts[i] in Values(df, PeriodKey) && opts[j] in Values(df, PeriodKey);
    var a :| 0 <= a < |df| && Values(df, PeriodKey)[a] == opts[i];
    var b :| 0 <= b < |df| && Values(df, PeriodKey)[b] == opts[j];
    var p, q := df[a].period, df[b].period;
    ParseFormat(p);
    ParseFormat(q);
    FormatOrder(p, q);
    LessIrreflexive(opts[i]);
  }

  // ---- the slider's default range ----

  /** The outcome of a Python expression that may raise `IndexError`. */
  datatype Indexed<T> = Returned(value: T) | IndexError

  /** `value=(periodos[0], periodos[-1])` as written: indexing an empty list
      raises, and nothing around line 72 catches it. */
  function DefaultRangeAsWritten(periods: seq<string>): (r: Indexed<(string, string)>)
    ensures r.IndexError? <==> periods == []
  {
    if periods == [] then IndexError else Returned((periods[0], periods[|periods| - 1]))
  }

  /** A file whose periods all fail to parse loads without error, as an
      empty table, and the slider default then raises. */
  lemma UnparsablePeriodsCrashSlider()
    ensures Load(Sheet(REQUIRED_COLUMNS, [RawRow("2024/01", TextCode("A"), Some(100), "OK", Some("C1"))])) == Some([])
    ensures DefaultRangeAsWritten(PeriodOptions([])) == IndexError
  {
    var raw := RawRow("2024/01", TextCode("A"), Some(100), "OK", Some("C1"));
    assert Parse(raw.periodo) == None by {
      assert raw.periodo[4] == '/';
    }
    CleanSingle(raw);
    SortedDistinctEmpty(Values([], PeriodKey));
  }

  /** The default range, with the empty table reported as having none. */
  function DefaultRange(periods: seq<string>): (r: Option<(string, string)>)
    ensures r.None? <==> periods == []
    ensures r.Some? ==> r.value.0 == periods[0] && r.value.1 == periods[|periods| - 1]
  {
    if periods == [] then None else Some((periods[0], periods[|periods| - 1]))
  }

  /** The default range of ascending options spans every option. */
  lemma DefaultRangeCovers(periods: seq<string>, k: string)
    requires StrictlyAscending(periods) && k in periods
    ensures DefaultRange(periods).Some?
    ensures LessEq(DefaultRange(periods).value.0, k) && LessEq(k, DefaultRange(periods).value.1)
  {
  }
}
