/** The two derived views of the report: the trend table
    (`groupby('PERIODO_FMT').agg({'MTOTOTFAC': 'sum', 'SERCTO': 'count'})`)
    and the ranking of service codes by billed amount
    (`groupby('CODSERV').sum().sort_values(ascending=False).head(10)`). */
module Aggregate {

  import opened Wrappers
  import opened Text
  import opened Ingest

  /** What a group collects from each of its rows: the amount, for `sum`
      (an empty cell adds nothing), or one per present contract, for
      `count` of `SERCTO` (which counts the non-empty cells). */
  datatype Measure = Billed | Contracts

  function Weight(r: Row, m: Measure): int {
    match m
    case Billed => (match r.amount case Some(a) => a case None => 0)
    case Contracts => if r.contract.Some? then 1 else 0
  }

  /** The measure summed over a whole table. */
  function Total(rows: seq<Row>, m: Measure): int {
    if rows == [] then 0
    else Total(rows[..|rows| - 1], m) + Weight(rows[|rows| - 1], m)
  }

  /** The measure summed over the rows whose `col` is `k`: one cell of a
      `groupby(col)` aggregation. */
  function GroupTotal(rows: seq<Row>, col: Column, m: Measure, k: string): int {
    if rows == [] then 0
    else
      var last := rows[|rows| - 1];
      GroupTotal(rows[..|rows| - 1], col, m, k) + (if Field(last, col) == k then Weight(last, m) else 0)
  }

  /** A key no row carries has an empty group. */
  lemma {:induction false} GroupTotalAbsent(rows: seq<Row>, col: Column, m: Measure, k: string)
    requires forall i :: 0 <= i < |rows| ==> Field(rows[i], col) != k
    ensures GroupTotal(rows, col, m, k) == 0
  {
    if rows != [] {
      var init := rows[..|rows| - 1];
      forall i | 0 <= i < |init|
        ensures Field(init[i], col) != k
      {
        assert init[i] == rows[i];
      }
      GroupTotalAbsent(init, col, m, k);
    }
  }

  /** When every row carries the key, its group is the whole table. */
  lemma {:induction false} GroupTotalAll(rows: seq<Row>, col: Column, m: Measure, k: string)
    requires forall i :: 0 <= i < |rows| ==> Field(rows[i], col) == k
    ensures GroupTotal(rows, col, m, k) == Total(rows, m)
  {
    if rows != [] {
      var init := rows[..|rows| - 1];
      forall i | 0 <= i < |init|
        ensures Field(init[i], col) == k
      {
        assert init[i] == rows[i];
      }
      GroupTotalAll(init, col, m, k);
    }
  }

  /** The group totals of the keys `ks`, summed. */
  function SumOverKeys(ks: seq<string>, rows: seq<Row>, col: Column, m: Measure): int {
    if ks == [] then 0
    else SumOverKeys(ks[..|ks| - 1], rows, col, m) + GroupTotal(rows, col, m, ks[|ks| - 1])
  }

  predicate Distinct(ks: seq<string>) {
    forall i, j :: 0 <= i < j < |ks| ==> ks[i] != ks[j]
  }

  /** `v` counted once for each key of `ks` equal to `f`. */
  function Hits(ks: seq<string>, f: string, v: int): int {
    if ks == [] then 0
    else Hits(ks[..|ks| - 1], f, v) + (if ks[|ks| - 1] == f then v else 0)
  }

  lemma {:induction false} HitsAbsent(ks: seq<string>, f: string, v: int)
    requires f !in ks
    ensures Hits(ks, f, v) == 0
  {
    if ks != [] {
      HitsAbsent(ks[..|ks| - 1], f, v);
    }
  }

  lemma {:induction false} HitsOnce(ks: seq<string>, f: string, v: int)
    requires Distinct(ks) && f in ks
    ensures Hits(ks, f, v) == v
  {
    var n := |ks| - 1;
    var init := ks[..n];
    if ks[n] == f {
      forall i | 0 <= i < n
        ensures init[i] != f
      {
        assert ks[i] != ks[n];
      }
      HitsAbsent(init, f, v);
    } else {
      assert f in init by {
        var i :| 0 <= i < |ks| && ks[i] == f;
        assert init[i] == f;
      }
      HitsOnce(init, f, v);
    }
  }

  /** Adding a row adds its weight to the group of its key and to no
      other. */
  lemma {:induction false} SumOverKeysSnoc(ks: seq<string>, rows: seq<Row>, x: Row, col: Column, m: Measure)
    ensures SumOverKeys(ks, rows + [x], col, m) == SumOverKeys(ks, rows, col, m) + Hits(ks, Field(x, col), Weight(x, m))
  {
    assert (rows + [x])[..|rows|] == rows;
    if ks != [] {
      SumOverKeysSnoc(ks[..|ks| - 1], rows, x, col, m);
    }
  }

  /** Conservation: when every key of the table occurs once among `ks`, the
      group totals add up to the total of the table. */
  lemma {:induction false} Conservation(ks: seq<string>, rows: seq<Row>, col: Column, m: Measure)
    requires Distinct(ks)
    requires forall i :: 0 <= i < |rows| ==> Field(rows[i], col) in ks
    ensures SumOverKeys(ks, rows, col, m) == Total(rows, m)
  {
    if rows == [] {
      SumOverKeysEmpty(ks, col, m);
    } else {
      var n := |rows| - 1;
      var init, x := rows[..n], rows[n];
      assert rows == init + [x];
      Conservation(ks, init, col, m);
      SumOverKeysSnoc(ks, init, x, col, m);
      HitsOnce(ks, Field(x, col), Weight(x, m));
    }
  }

  lemma {:induction false} SumOverKeysEmpty(ks: seq<string>, col: Column, m: Measure)
    ensures SumOverKeys(ks, [], col, m) == 0
  {
    if ks != [] {
      SumOverKeysEmpty(ks[..|ks| - 1], col, m);
    }
  }

  lemma AscendingIsDistinct(ks: seq<string>)
    requires StrictlyAscending(ks)
    ensures Distinct(ks)
  {
    forall i, j | 0 <= i < j < |ks|
      ensures ks[i] != ks[j]
    {
      AscendingDistinct(ks, i, j);
    }
  }

  // ---- trend table ----

  /** One row of `trend_data`: the period key, the billed amount of that
      period and the number of its contracts. */
  datatype TrendRow = TrendRow(key: string, total: int, count: int)

  /** The trend rows of the keys `ks`, in the order of `ks`. */
  function TrendFor(rows: seq<Row>, ks: seq<string>): (t: seq<TrendRow>)
    ensures |t| == |ks|
    ensures forall i :: 0 <= i < |t| ==> t[i].key == ks[i]
  {
    if ks == [] then []
    else
      var k := ks[|ks| - 1];
      TrendFor(rows, ks[..|ks| - 1])
        + [TrendRow(k, GroupTotal(rows, PeriodKey, Billed, k), GroupTotal(rows, PeriodKey, Contracts, k))]
  }

  lemma {:induction false} TrendForAt(rows: seq<Row>, ks: seq<string>, i: int)
    requires 0 <= i < |ks|
    ensures TrendFor(rows, ks)[i]
            == TrendRow(ks[i], GroupTotal(rows, PeriodKey, Billed, ks[i]), GroupTotal(rows, PeriodKey, Contracts, ks[i]))
  {
    var n := |ks| - 1;
    if i < n {
      TrendForAt(rows, ks[..n], i);
    }
  }

  function TrendKeys(t: seq<TrendRow>): (ks: seq<string>)
    ensures |ks| == |t| && forall i :: 0 <= i < |t| ==> ks[i] == t[i].key
  {
    seq(|t|, i requires 0 <= i < |t| => t[i].key)
  }

  /** `trend_data` for the filtered rows. */
  function Trend(rows: seq<Row>): (t: seq<TrendRow>)
    ensures StrictlyAscending(TrendKeys(t))
    ensures forall k :: k in TrendKeys(t) <==> k in Values(rows, PeriodKey)
  {
    var ks := SortedDistinct(Values(rows, PeriodKey));
    var t := TrendFor(rows, ks);
    assert TrendKeys(t) == ks;
    t
  }

  /** Each trend row carries the sum of the amounts and the count of the
      contracts of its own period. */
  lemma TrendRowTotals(rows: seq<Row>, i: int)
    requires 0 <= i < |Trend(rows)|
    ensures Trend(rows)[i].total == GroupTotal(rows, PeriodKey, Billed, Trend(rows)[i].key)
    ensures Trend(rows)[i].count == GroupTotal(rows, PeriodKey, Contracts, Trend(rows)[i].key)
  {
    TrendForAt(rows, SortedDistinct(Values(rows, PeriodKey)), i);
  }

  /** The trend is empty exactly when there are no rows. */
  lemma TrendEmpty(rows: seq<Row>)
    ensures Trend(rows) == [] <==> rows == []
  {
    SortedDistinctEmpty(Values(rows, PeriodKey));
  }

  /** A column of trend rows, summed. */
  function TrendSum(t: seq<TrendRow>, m: Measure): int {
    if t == [] then 0
    else TrendSum(t[..|t| - 1], m) + (match m case Billed => t[|t| - 1].total case Contracts => t[|t| - 1].count)
  }

  lemma {:induction false} TrendForSum(rows: seq<Row>, ks: seq<string>, m: Measure)
    ensures TrendSum(TrendFor(rows, ks), m) == SumOverKeys(ks, rows, PeriodKey, m)
  {
    if ks != [] {
      var t := TrendFor(rows, ks);
      assert t[..|t| - 1] == TrendFor(rows, ks[..|ks| - 1]);
      TrendForSum(rows, ks[..|ks| - 1], m);
    }
  }

  /** Conservation: the trend's amounts add up to the amount of the
      filtered rows, and its counts to their number of contracts. */
  lemma TrendConservation(rows: seq<Row>, m: Measure)
    ensures TrendSum(Trend(rows), m) == Total(rows, m)
  {
    var ks := SortedDistinct(Values(rows, PeriodKey));
    AscendingIsDistinct(ks);
    TrendForSum(rows, ks, m);
    assert forall i :: 0 <= i < |rows| ==> Field(rows[i], PeriodKey) in Values(rows, PeriodKey);
    Conservation(ks, rows, PeriodKey, m);
  }

  // ---- top-10 ranking ----

  /** One row of `top_df`: a service code and its billed amount. */
  datatype Ranked = Ranked(code: string, total: int)

  /** The number of rows `head` keeps. */
  const TOP_N: nat := 10

  /** `groupby('CODSERV').sum()` over the codes `cs`. */
  function GroupsFor(rows: seq<Row>, cs: seq<string>): (g: seq<Ranked>)
    ensures |g| == |cs|
    ensures forall i :: 0 <= i < |g| ==> g[i] == Ranked(cs[i], GroupTotal(rows, ServiceCode, Billed, cs[i]))
  {
    if cs == [] then []
    else
      var c := cs[|cs| - 1];
      GroupsFor(rows, cs[..|cs| - 1]) + [Ranked(c, GroupTotal(rows, ServiceCode, Billed, c))]
  }

  predicate NonIncreasing(s: seq<Ranked>) {
    forall i, j :: 0 <= i < j < |s| ==> s[i].total >= s[j].total
  }

  predicate DistinctCodes(s: seq<Ranked>) {
    forall i, j :: 0 <= i < j < |s| ==> s[i].code != s[j].code
  }

  /** Puts `x` into a non-increasing sequence, keeping it so. */
  function InsertByTotal(x: Ranked, s: seq<Ranked>): (r: seq<Ranked>)
    requires NonIncreasing(s)
    ensures NonIncreasing(r)
    ensures multiset(r) == multiset(s) + multiset{x}
    ensures r[0] == x || (s != [] && r[0] == s[0])
  {
    if s == [] then [x]
    else if x.total >= s[0].total then [x] + s
    else
      var rest := InsertByTotal(x, s[1..]);
      assert s == [s[0]] + s[1..];
      ConsNonIncreasing(s[0], rest);
      [s[0]] + rest
  }

  lemma ConsNonIncreasing(y: Ranked, t: seq<Ranked>)
    requires NonIncreasing(t) && (t == [] || y.total >= t[0].total)
    ensures NonIncreasing([y] + t)
  {
    var r := [y] + t;
    forall i, j | 0 <= i < j < |r|
      ensures r[i].total >= r[j].total
    {
      if i == 0 && j > 1 {
        assert r[1] == t[0] && r[j] == t[j - 1];
      }
    }
  }

  lemma {:induction false} InsertByTotalDistinct(x: Ranked, s: seq<Ranked>)
    requires NonIncreasing(s) && DistinctCodes(s)
    requires forall y :: y in s ==> y.code != x.code
    ensures DistinctCodes(InsertByTotal(x, s))
  {
    if s != [] && x.total < s[0].total {
      var rest := InsertByTotal(x, s[1..]);
      InsertByTotalDistinct(x, s[1..]);
      forall y | y in rest
        ensures y.code != s[0].code
      {
        assert y in multiset(rest);
        if y != x {
          var j :| 0 <= j < |s[1..]| && s[1..][j] == y;
          assert s[j + 1] == y;
        }
      }
    }
  }

  /** `sort_values('MTOTOTFAC', ascending=False)`: the groups reordered so
      that the totals do not increase. Which of two equal totals comes first
      is left open, as the source's sort leaves it open. */
  function SortByTotal(s: seq<Ranked>): (r: seq<Ranked>)
    ensures NonIncreasing(r)
    ensures multiset(r) == multiset(s)
  {
    if s == [] then []
    else
      var init, x := s[..|s| - 1], s[|s| - 1];
      assert s == init + [x];
      InsertByTotal(x, SortByTotal(init))
  }

  lemma {:induction false} SortByTotalDistinct(s: seq<Ranked>)
    requires DistinctCodes(s)
    ensures DistinctCodes(SortByTotal(s))
  {
    if s != [] {
      var init, x := s[..|s| - 1], s[|s| - 1];
      assert s == init + [x];
      var sorted := SortByTotal(init);
      SortByTotalDistinct(init);
      forall y | y in sorted
        ensures y.code != x.code
      {
        assert y in multiset(init);
        var i :| 0 <= i < |init| && init[i] == y;
      }
      InsertByTotalDistinct(x, sorted);
    }
  }

  lemma GroupsDistinct(rows: seq<Row>, cs: seq<string>)
    requires StrictlyAscending(cs)
    ensures DistinctCodes(GroupsFor(rows, cs))
  {
    var groups := GroupsFor(rows, cs);
    forall i, j | 0 <= i < j < |groups|
      ensures groups[i].code != groups[j].code
    {
      AscendingDistinct(cs, i, j);
    }
  }

  function Min(a: int, b: int): int {
    if a <= b then a else b
  }

  /** Sorting the groups of distinct codes keeps the codes distinct and
      each group its own total. */
  lemma GroupsSortedFacts(rows: seq<Row>, cs: seq<string>)
    requires StrictlyAscending(cs)
    ensures DistinctCodes(SortByTotal(GroupsFor(rows, cs)))
    ensures forall y :: y in SortByTotal(GroupsFor(rows, cs)) ==>
              y.code in cs && y.total == GroupTotal(rows, ServiceCode, Billed, y.code)
  {
    var groups := GroupsFor(rows, cs);
    GroupsDistinct(rows, cs);
    SortByTotalDistinct(groups);
    var sorted := SortByTotal(groups);
    forall y | y in sorted
      ensures y.code in cs && y.total == GroupTotal(rows, ServiceCode, Billed, y.code)
    {
      assert y in multiset(groups);
      var i :| 0 <= i < |groups| && groups[i] == y;
    }
  }

  /** The sorted groups of the ranking view. */
  function SortedGroups(rows: seq<Row>): (sorted: seq<Ranked>)
    ensures NonIncreasing(sorted) && DistinctCodes(sorted)
    ensures forall y :: y in sorted ==> y.code in Values(rows, ServiceCode)
    ensures forall y :: y in sorted ==> y.total == GroupTotal(rows, ServiceCode, Billed, y.code)
  {
    var cs := SortedDistinct(Values(rows, ServiceCode));
    GroupsSortedFacts(rows, cs);
    SortByTotal(GroupsFor(rows, cs))
  }

  /** `top_df` for the rows of the ranking view. */
  function Ranking(rows: seq<Row>): (r: seq<Ranked>)
    ensures |r| <= TOP_N
    ensures NonIncreasing(r)
    ensures DistinctCodes(r)
    ensures forall i :: 0 <= i < |r| ==> r[i].code in Values(rows, ServiceCode)
    ensures forall i :: 0 <= i < |r| ==> r[i].total == GroupTotal(rows, ServiceCode, Billed, r[i].code)
  {
    var sorted := SortedGroups(rows);
    PrefixFacts(sorted, Min(TOP_N, |sorted|));
    sorted[..Min(TOP_N, |sorted|)]
  }

  /** `head(n)` of a non-increasing list with distinct codes keeps both,
      and lists only rows of the whole. */
  lemma PrefixFacts(s: seq<Ranked>, n: int)
    requires NonIncreasing(s) && DistinctCodes(s) && 0 <= n <= |s|
    ensures NonIncreasing(s[..n]) && DistinctCodes(s[..n])
    ensures forall i :: 0 <= i < n ==> s[..n][i] in s
  {
    forall i | 0 <= i < n
      ensures s[..n][i] in s
    {
      assert s[..n][i] == s[i];
    }
  }

  /** Every code of the rows has its group among the sorted groups. */
  lemma SortedGroupsComplete(rows: seq<Row>, c: string)
    requires c in Values(rows, ServiceCode)
    ensures Ranked(c, GroupTotal(rows, ServiceCode, Billed, c)) in SortedGroups(rows)
  {
    var cs := SortedDistinct(Values(rows, ServiceCode));
    var groups := GroupsFor(rows, cs);
    assert SortedGroups(rows) == SortByTotal(groups);
    var i :| 0 <= i < |cs| && cs[i] == c;
    assert groups[i] in multiset(groups);
  }

  /** A group of a non-increasing list missing from its first ten comes
      after a full top ten, and no higher than the tenth. */
  lemma TopDominance(sorted: seq<Ranked>, top: seq<Ranked>, g: Ranked)
    requires NonIncreasing(sorted) && g in sorted
    requires top == sorted[..Min(TOP_N, |sorted|)]
    requires forall i :: 0 <= i < |top| ==> top[i].code != g.code
    ensures |top| == TOP_N
    ensures g.total <= top[TOP_N - 1].total
  {
    var j :| 0 <= j < |sorted| && sorted[j] == g;
    forall i | 0 <= i < |top|
      ensures sorted[i] != g
    {
      assert top[i] == sorted[i];
    }
    assert j >= |top|;
    assert top[TOP_N - 1] == sorted[TOP_N - 1];
  }

  /** The ranking is the first ten sorted groups. */
  lemma RankingIsPrefix(rows: seq<Row>)
    ensures Ranking(rows) == SortedGroups(rows)[..Min(TOP_N, |SortedGroups(rows)|)]
  {
  }

  /** Every code of the view that the ranking leaves out has a total no
      larger than the smallest one listed, and it is left out only when the
      ranking is full. */
  lemma RankingDominance(rows: seq<Row>, c: string)
    requires c in Values(rows, ServiceCode)
    requires forall i :: 0 <= i < |Ranking(rows)| ==> Ranking(rows)[i].code != c
    ensures |Ranking(rows)| == TOP_N
    ensures GroupTotal(rows, ServiceCode, Billed, c) <= Ranking(rows)[TOP_N - 1].total
  {
    var g := Ranked(c, GroupTotal(rows, ServiceCode, Billed, c));
    SortedGroupsComplete(rows, c);
    RankingIsPrefix(rows);
    TopDominance(SortedGroups(rows), Ranking(rows), g);
  }

  /** The ranking lists min(10, number of distinct codes) rows: every code
      when there are at most ten. */
  lemma RankingSize(rows: seq<Row>)
    ensures |Ranking(rows)| == Min(TOP_N, |SortedDistinct(Values(rows, ServiceCode))|)
  {
    var cs := SortedDistinct(Values(rows, ServiceCode));
    var sorted := SortedGroups(rows);
    assert sorted == SortByTotal(GroupsFor(rows, cs));
    assert |multiset(sorted)| == |multiset(GroupsFor(rows, cs))|;
  }
}
