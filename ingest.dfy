/** `load_data`: reads five columns of the uploaded sheet, renders the
    service code as text, parses the period, drops the rows whose period
    does not parse and adds the `PERIODO_FMT` key. */
module Ingest {

  import opened Wrappers
  import opened Text
  import opened Periods

  /** A `CODSERV` cell as the sheet holds it: text, or a whole number. */
  datatype RawCode = TextCode(text: string) | NumberCode(number: int)

  /** One sheet row restricted to the five columns `load_data` asks for. A
      missing amount or contract is an empty cell (`NaN`). */
  datatype RawRow = RawRow(
    periodo: string,
    codserv: RawCode,
    mtototfac: Option<int>,
    estado: string,
    sercto: Option<string>)

  /** The uploaded file: either it cannot be read as a workbook, or it is a
      sheet with a header of column names and its rows. */
  datatype Workbook = Unreadable | Sheet(columns: seq<string>, rows: seq<RawRow>)

  /** The columns passed as `usecols`; `read_excel` raises when one of them
      is not in the header. */
  const REQUIRED_COLUMNS: seq<string> := ["PERIODO", "CODSERV", "MTOTOTFAC", "ESTADO", "SERCTO"]

  /** A row of the loaded data frame: `PERIODO` parsed, `CODSERV` as text,
      `MTOTOTFAC`, `ESTADO`, `SERCTO`, and the derived `PERIODO_FMT`. */
  datatype Row = Row(
    period: Period,
    code: string,
    amount: Option<int>,
    status: string,
    contract: Option<string>,
    key: string)

  /** Every row `load_data` returns has a parsed period and its canonical
      key. */
  predicate WellFormed(r: Row) {
    Valid(r.period) && r.key == Format(r.period)
  }

  predicate AllWellFormed(df: seq<Row>) {
    forall i :: 0 <= i < |df| ==> WellFormed(df[i])
  }

  /** The text columns of the loaded table that the report reads. */
  datatype Column = PeriodKey | ServiceCode | Status

  function Field(r: Row, col: Column): string {
    match col
    case PeriodKey => r.key
    case ServiceCode => r.code
    case Status => r.status
  }

  /** `df[col]`: one column of the table, in row order. */
  function Values(df: seq<Row>, col: Column): (vs: seq<string>)
    ensures |vs| == |df|
    ensures forall i :: 0 <= i < |df| ==> vs[i] == Field(df[i], col)
  {
    seq(|df|, i requires 0 <= i < |df| => Field(df[i], col))
  }

  /** `astype(str)` on one cell. */
  function CodeAsText(c: RawCode): (s: string)
    ensures c.TextCode? ==> s == c.text
    ensures c.NumberCode? ==> s != [] && (s[0] == '-' <==> c.number < 0)
  {
    match c
    case TextCode(t) => t
    case NumberCode(n) => IntToString(n)
  }

  /** The row a raw row becomes when its period parsed as `p`. */
  function Normalize(raw: RawRow, p: Period): (r: Row)
    requires Valid(p)
    ensures WellFormed(r)
  {
    Row(p, CodeAsText(raw.codserv), raw.mtototfac, raw.estado, raw.sercto, Format(p))
  }

  /** What one raw row contributes: itself normalised, or nothing when its
      period does not parse. */
  function CleanOne(raw: RawRow): (df: seq<Row>)
    ensures |df| <= 1 && AllWellFormed(df)
    ensures df == [] <==> Parse(raw.periodo).None?
  {
    match Parse(raw.periodo)
    case None => []
    case Some(p) => [Normalize(raw, p)]
  }

  /** The normalisation of lines 47-50 applied to all rows. */
  function Clean(raws: seq<RawRow>): (df: seq<Row>)
    ensures |df| <= |raws|
    ensures AllWellFormed(df)
  {
    if raws == [] then []
    else Clean(raws[..|raws| - 1]) + CleanOne(raws[|raws| - 1])
  }

  predicate HasColumns(columns: seq<string>) {
    forall c :: c in REQUIRED_COLUMNS ==> c in columns
  }

  /** `load_data`: `None` when reading raises, the cleaned rows otherwise. */
  function Load(book: Workbook): (df: Option<seq<Row>>)
    ensures df.None? <==> book.Unreadable? || !HasColumns(book.columns)
    ensures df.Some? ==> AllWellFormed(df.value) && |df.value| <= |book.rows|
  {
    match book
    case Unreadable => None
    case Sheet(columns, rows) => if HasColumns(columns) then Some(Clean(rows)) else None
  }

  /** `load_data`, one row at a time: each row's code is rendered as text,
      its period parsed, and the row kept with its key when the period
      parsed. */
  method LoadData(book: Workbook) returns (df: Option<seq<Row>>)
    ensures df == Load(book)
  {
    if book.Unreadable? || !HasColumns(book.columns) {
      return None;
    }
    var rows := book.rows;
    var kept: seq<Row> := [];
    var i := 0;
    while i < |rows|
      invariant 0 <= i <= |rows|
      invariant kept == Clean(rows[..i])
    {
      var raw := rows[i];
      var code := CodeAsText(raw.codserv);
      var period := Parse(raw.periodo);
      if period.Some? {
        kept := kept + [Row(period.value, code, raw.mtototfac, raw.estado, raw.sercto, Format(period.value))];
      }
      assert rows[..i + 1][..i] == rows[..i];
      i := i + 1;
    }
    assert rows[..i] == rows;
    df := Some(kept);
  }

  /** Cleaning works row by row: the cleaned rows of two parts of a sheet
      are the cleaned rows of each part, in order. */
  lemma {:induction false} CleanAppend(a: seq<RawRow>, b: seq<RawRow>)
    ensures Clean(a + b) == Clean(a) + Clean(b)
    decreases |b|
  {
    if b == [] {
      assert a + b == a;
    } else {
      var b', x := b[..|b| - 1], b[|b| - 1];
      assert (a + b)[..|a + b| - 1] == a + b';
      assert (a + b)[|a + b| - 1] == x;
      CleanAppend(a, b');
      var p, q, r := Clean(a), Clean(b'), CleanOne(x);
      assert Clean(a + b) == p + q + r;
      assert p + q + r == p + (q + r);
    }
  }

  /** A row survives exactly when its period parses. */
  lemma CleanSingle(raw: RawRow)
    ensures Clean([raw]) == CleanOne(raw)
    ensures |Clean([raw])| == 1 <==> Parse(raw.periodo).Some?
  {
    assert [raw][..0] == [];
  }

  /** Every row whose period parses is kept, normalised. */
  lemma {:induction false} CleanKeeps(raws: seq<RawRow>, i: nat)
    requires i < |raws| && Parse(raws[i].periodo).Some?
    ensures Normalize(raws[i], Parse(raws[i].periodo).value) in Clean(raws)
    decreases |raws|
  {
    var n := |raws| - 1;
    if i < n {
      assert raws[..n][i] == raws[i];
      CleanKeeps(raws[..n], i);
    }
  }

  /** Every kept row is a raw row whose period parsed, normalised. */
  lemma {:induction false} CleanOrigin(raws: seq<RawRow>, x: Row)
    requires x in Clean(raws)
    ensures exists i :: 0 <= i < |raws| && Parse(raws[i].periodo) == Some(x.period) && x == Normalize(raws[i], x.period)
    decreases |raws|
  {
    var n := |raws| - 1;
    if x in Clean(raws[..n]) {
      CleanOrigin(raws[..n], x);
      var i :| 0 <= i < n && Parse(raws[..n][i].periodo) == Some(x.period) && x == Normalize(raws[..n][i], x.period);
      assert raws[..n][i] == raws[i];
    } else {
      assert x in CleanOne(raws[n]);
    }
  }

  /** A sheet in which every period parses loses no row. */
  lemma {:induction false} CleanAllParse(raws: seq<RawRow>)
    requires forall i :: 0 <= i < |raws| ==> Parse(raws[i].periodo).Some?
    ensures |Clean(raws)| == |raws|
  {
    if raws != [] {
      var n := |raws| - 1;
      var init := raws[..n];
      forall i | 0 <= i < |init|
        ensures Parse(init[i].periodo).Some?
      {
        assert init[i] == raws[i];
      }
      CleanAllParse(init);
      assert Clean(raws) == Clean(init) + CleanOne(raws[n]);
    }
  }

  /** A sheet in which no period parses yields an empty table, not an
      error. */
  lemma {:induction false} CleanNoneParse(raws: seq<RawRow>)
    requires forall i :: 0 <= i < |raws| ==> Parse(raws[i].periodo).None?
    ensures Clean(raws) == []
  {
    if raws != [] {
      var n := |raws| - 1;
      var init := raws[..n];
      forall i | 0 <= i < |init|
        ensures Parse(init[i].periodo).None?
      {
        assert init[i] == raws[i];
      }
      CleanNoneParse(init);
      assert Clean(raws) == Clean(init) + CleanOne(raws[n]);
    }
  }
}
