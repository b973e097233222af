/** The row filters of the report: the trend view keeps the rows whose
    status is selected, whose period is in the selected range and whose
    service code is the selected one (or any, for `"Todos"`); the ranking
    view applies the same mask without the service-code test. */
module Filter {

  import opened Wrappers
  import opened Text
  import opened Periods
  import opened Ingest

  /** The selector entry that stands for every service code. */
  const ALL_CODES: string := "Todos"

  /** The widget values: the code selector, the selected statuses and the
      two ends of the period slider, parsed back into periods. */
  datatype Criteria = Criteria(code: string, statuses: set<string>, start: Period, end: Period)

  /** The mask of lines 77 and 103: status selected and period in range. */
  predicate InWindow(r: Row, c: Criteria)
    ensures InWindow(r, c) ==> c.statuses != {} && NotAfter(c.start, c.end)
  {
    r.status in c.statuses && NotAfter(c.start, r.period) && NotAfter(r.period, c.end)
  }

  /** Whether a row is kept; `byCode` adds the code test of lines 78-79. */
  predicate Keep(r: Row, c: Criteria, byCode: bool)
    ensures Keep(r, c, byCode) ==> InWindow(r, c)
    ensures !byCode || c.code == ALL_CODES ==> (Keep(r, c, byCode) <==> InWindow(r, c))
    ensures byCode && r.code != c.code && c.code != ALL_CODES ==> !Keep(r, c, byCode)
  {
    InWindow(r, c) && (!byCode || c.code == ALL_CODES || r.code == c.code)
  }

  /** `df.loc[mask]`: the kept rows, in their order in `df`. */
  function Select(df: seq<Row>, c: Criteria, byCode: bool): (r: seq<Row>)
    ensures |r| <= |df|
    ensures forall i :: 0 <= i < |r| ==> Keep(r[i], c, byCode)
  {
    if df == [] then []
    else
      var last := df[|df| - 1];
      Select(df[..|df| - 1], c, byCode) + (if Keep(last, c, byCode) then [last] else [])
  }

  /** `filtered_df` (byCode) and the rows of `top_mask` (not byCode), built
      as the source builds them: a boolean mask from the status and period
      tests, narrowed in place by the code test when a code is selected,
      then used to pick the rows. */
  method FilterRows(df: seq<Row>, c: Criteria, byCode: bool) returns (kept: seq<Row>)
    ensures kept == Select(df, c, byCode)
  {
    var n := |df|;
    var mask := new bool[n];
    for i := 0 to n
      invariant forall k :: 0 <= k < i ==> mask[k] == InWindow(df[k], c)
    {
      mask[i] := df[i].status in c.statuses && NotAfter(c.start, df[i].period) && NotAfter(df[i].period, c.end);
    }
    if byCode && c.code != ALL_CODES {
      for i := 0 to n
        invariant forall k :: 0 <= k < i ==> mask[k] == Keep(df[k], c, byCode)
        invariant forall k :: i <= k < n ==> mask[k] == InWindow(df[k], c)
      {
        mask[i] := mask[i] && df[i].code == c.code;
      }
    }
    assert forall k :: 0 <= k < n ==> mask[k] == Keep(df[k], c, byCode);
    kept := [];
    for i := 0 to n
      invariant kept == Select(df[..i], c, byCode)
    {
      if mask[i] {
        kept := kept + [df[i]];
      }
      assert df[..i + 1][..i] == df[..i];
    }
    assert df[..n] == df;
  }

  /** A row is in the result exactly when it is a row of `df` that passes
      every test. */
  lemma {:induction false} SelectMember(df: seq<Row>, c: Criteria, byCode: bool, x: Row)
    ensures x in Select(df, c, byCode) <==> x in df && Keep(x, c, byCode)
  {
    if df != [] {
      var n := |df| - 1;
      SelectMember(df[..n], c, byCode, x);
      assert df == df[..n] + [df[n]];
    }
  }

  /** `a` is a subsequence of `b`: `b` with some elements left out, the
      rest in their order. */
  predicate Subsequence(a: seq<Row>, b: seq<Row>)
    decreases |b|
  {
    if a == [] then true
    else if b == [] then false
    else (a[|a| - 1] == b[|b| - 1] && Subsequence(a[..|a| - 1], b[..|b| - 1]))
         || Subsequence(a, b[..|b| - 1])
  }

  /** Filtering neither reorders nor duplicates rows. */
  lemma {:induction false} SelectSubsequence(df: seq<Row>, c: Criteria, byCode: bool)
    ensures Subsequence(Select(df, c, byCode), df)
  {
    if df != [] {
      var n := |df| - 1;
      var r := Select(df, c, byCode);
      SelectSubsequence(df[..n], c, byCode);
      assert df[..|df| - 1] == df[..n];
      if Keep(df[n], c, byCode) {
        assert r[..|r| - 1] == Select(df[..n], c, byCode);
        assert r[|r| - 1] == df[n];
      } else {
        assert r == Select(df[..n], c, byCode);
      }
    }
  }

  /** Rows are tested one at a time: filtering two parts of a table and
      concatenating is filtering the whole. */
  lemma {:induction false} SelectAppend(a: seq<Row>, b: seq<Row>, c: Criteria, byCode: bool)
    ensures Select(a + b, c, byCode) == Select(a, c, byCode) + Select(b, c, byCode)
    decreases |b|
  {
    if b == [] {
      assert a + b == a;
    } else {
      var b' := b[..|b| - 1];
      assert (a + b)[..|a + b| - 1] == a + b';
      SelectAppend(a, b', c, byCode);
    }
  }

  /** No selected status, no rows. */
  lemma {:induction false} SelectNoStatus(df: seq<Row>, c: Criteria, byCode: bool)
    requires c.statuses == {}
    ensures Select(df, c, byCode) == []
  {
    if df != [] {
      SelectNoStatus(df[..|df| - 1], c, byCode);
    }
  }

  /** A range whose start is after its end keeps nothing. */
  lemma {:induction false} SelectEmptyRange(df: seq<Row>, c: Criteria, byCode: bool)
    requires !NotAfter(c.start, c.end)
    ensures Select(df, c, byCode) == []
  {
    if df != [] {
      SelectEmptyRange(df[..|df| - 1], c, byCode);
    }
  }

  /** With every status selected, a range covering every period and every
      code (or the ranking view), the filter keeps the whole table. */
  lemma {:induction false} SelectAll(df: seq<Row>, c: Criteria, byCode: bool)
    requires !byCode || c.code == ALL_CODES
    requires forall i :: 0 <= i < |df| ==> InWindow(df[i], c)
    ensures Select(df, c, byCode) == df
  {
    if df != [] {
      var n := |df| - 1;
      var init := df[..n];
      forall i | 0 <= i < |init|
        ensures InWindow(init[i], c)
      {
        assert init[i] == df[i];
      }
      SelectAll(init, c, byCode);
      assert Keep(df[n], c, byCode);
      assert df == init + [df[n]];
    }
  }

  /** With `"Todos"` selected the trend rows and the ranking rows are the
      same rows. */
  lemma {:induction false} ViewsAgreeOnAllCodes(df: seq<Row>, c: Criteria)
    requires c.code == ALL_CODES
    ensures Select(df, c, true) == Select(df, c, false)
  {
    if df != [] {
      ViewsAgreeOnAllCodes(df[..|df| - 1], c);
    }
  }

  /** The trend rows are the ranking rows of the selected code: the code
      test only narrows the ranking view. */
  lemma {:induction false} TrendViewNarrowsRankingView(df: seq<Row>, c: Criteria)
    ensures Subsequence(Select(df, c, true), Select(df, c, false))
  {
    if df != [] {
      var n := |df| - 1;
      var t, r := Select(df, c, true), Select(df, c, false);
      TrendViewNarrowsRankingView(df[..n], c);
      if Keep(df[n], c, true) {
        assert t[..|t| - 1] == Select(df[..n], c, true);
        assert r[..|r| - 1] == Select(df[..n], c, false);
      } else if Keep(df[n], c, false) {
        assert t == Select(df[..n], c, true);
        assert r == Select(df[..n], c, false) + [df[n]];
        SubsequenceSnoc(t, Select(df[..n], c, false), df[n]);
      } else {
        assert t == Select(df[..n], c, true);
        assert r == Select(df[..n], c, false);
      }
    }
  }

  /** The ranking view does not depend on the code selector. */
  lemma {:induction false} RankingViewIgnoresCode(df: seq<Row>, c: Criteria, code: string)
    ensures Select(df, c.(code := code), false) == Select(df, c, false)
  {
    if df != [] {
      RankingViewIgnoresCode(df[..|df| - 1], c, code);
    }
  }

  lemma {:induction false} SubsequenceSnoc(a: seq<Row>, b: seq<Row>, x: Row)
    requires Subsequence(a, b)
    ensures Subsequence(a, b + [x])
  {
    assert (b + [x])[..|b|] == b;
  }

  /** The slider returns period keys; comparing the parsed timestamps, as
      lines 74-77 do, is comparing the keys as text. */
  lemma WindowByKeys(r: Row, startKey: string, endKey: string, start: Period, end: Period)
    requires WellFormed(r)
    requires Parse(startKey) == Some(start) && Parse(endKey) == Some(end)
    requires Canonical(startKey) && Canonical(endKey)
    ensures NotAfter(start, r.period) && NotAfter(r.period, end)
            <==> LessEq(startKey, r.key) && LessEq(r.key, endKey)
  {
    FormatParse(startKey);
    FormatParse(endKey);
    FormatOrder(start, r.period);
    FormatOrder(r.period, end);
  }
}
