/** Billing periods: the `PERIODO` column parsed with
    `pd.to_datetime(..., format='%Y-%m', errors='coerce')` and rendered back
    as the `PERIODO_FMT` key with `strftime('%Y-%m')`. */
module Periods {

  import opened Wrappers
  import opened Text

  /** A calendar month; pandas represents it as the timestamp of its first
      day. */
  datatype Period = Period(year: int, month: int)

  /** `p` comes no later than `q`: the comparison `PERIODO >= start_date`
      and `PERIODO <= end_date` make on month-start timestamps. */
  predicate NotAfter(p: Period, q: Period) {
    p.year < q.year || (p.year == q.year && p.month <= q.month)
  }

  /** The first and last month whose first day fits in a pandas nanosecond
      timestamp (1677-09-21 to 2262-04-11); a period outside them is coerced
      to `NaT`. */
  const FIRST_PERIOD := Period(1677, 10)
  const LAST_PERIOD := Period(2262, 4)

  predicate Valid(p: Period) {
    1 <= p.month <= 12 && NotAfter(FIRST_PERIOD, p) && NotAfter(p, LAST_PERIOD)
  }

  /** `%Y-%m` as pandas matches it: exactly four digits of year, a dash, and
      a month written `01`..`12` or as a single digit `1`..`9`; the whole
      string must match. `None` is the `NaT` that `errors='coerce'` puts in
      place of a failure. */
  function Parse(s: string): (r: Option<Period>)
    ensures r.Some? ==> Valid(r.value)
  {
    if |s| < 6 || |s| > 7 || !AllDigits(s[..4]) || s[4] != '-' || !AllDigits(s[5..]) then None
    else
      var p := Period(DigitsValue(s[..4]), DigitsValue(s[5..]));
      if Valid(p) then Some(p) else None
  }

  /** `strftime('%Y-%m')`: four-digit year, dash, two-digit month. */
  function Format(p: Period): (s: string)
    requires Valid(p)
    ensures |s| == 7 && s[4] == '-'
  {
    PaddedDigits(p.year, 4) + "-" + PaddedDigits(p.month, 2)
  }

  /** A period key as `strftime('%Y-%m')` writes it. */
  predicate Canonical(s: string) {
    |s| == 7 && Parse(s).Some?
  }

  lemma FormatParts(p: Period)
    requires Valid(p)
    ensures Format(p)[..4] == PaddedDigits(p.year, 4)
    ensures Format(p)[5..] == PaddedDigits(p.month, 2)
  {
  }

  /** Formatting a period and parsing the key gives the period back. */
  lemma {:induction false} ParseFormat(p: Period)
    requires Valid(p)
    ensures Parse(Format(p)) == Some(p)
    ensures Canonical(Format(p))
  {
    FormatParts(p);
    PaddedDigitsValue(p.year, 4);
    PaddedDigitsValue(p.month, 2);
  }

  lemma ParseParts(s: string)
    requires Parse(s).Some?
    ensures 6 <= |s| <= 7 && s[4] == '-' && AllDigits(s[..4]) && AllDigits(s[5..])
    ensures Parse(s).value == Period(DigitsValue(s[..4]), DigitsValue(s[5..]))
  {
  }

  /** A single month digit, padded to two, keeps its value. */
  lemma ZeroPadValue(m: string)
    requires |m| == 1 && AllDigits(m)
    ensures AllDigits("0" + m) && DigitsValue("0" + m) == DigitsValue(m)
  {
    var m2 := "0" + m;
    assert m2[..1] == "0" && m2[1] == m[0];
    assert DigitsValue("0") == 0 by {
      assert "0"[..0] == [];
    }
    assert m[..0] == [];
  }

  /** Parsing a key and formatting the period gives the canonical key: the
      key itself when it was canonical, and the key with its single-digit
      month zero-padded otherwise. */
  lemma {:induction false} FormatParse(s: string)
    requires Parse(s).Some?
    ensures Format(Parse(s).value) == if |s| == 7 then s else s[..5] + "0" + s[5..]
  {
    ParseParts(s);
    var p := Parse(s).value;
    var y, m := s[..4], s[5..];
    PaddedDigitsOfValue(y);
    if |s| == 7 {
      PaddedDigitsOfValue(m);
      assert s == y + "-" + m;
    } else {
      ZeroPadValue(m);
      PaddedDigitsOfValue("0" + m);
      assert s[..5] == y + "-";
    }
  }

  /** Keys sort as text in the same order as the periods they stand for, so
      `sorted(...)` of `PERIODO_FMT` is chronological. */
  lemma {:induction false} FormatOrder(p: Period, q: Period)
    requires Valid(p) && Valid(q)
    ensures NotAfter(p, q) <==> LessEq(Format(p), Format(q))
    ensures p == q <==> Format(p) == Format(q)
  {
    var yp, yq := PaddedDigits(p.year, 4), PaddedDigits(q.year, 4);
    var mp, mq := PaddedDigits(p.month, 2), PaddedDigits(q.month, 2);
    PaddedDigitsValue(p.year, 4);
    PaddedDigitsValue(q.year, 4);
    PaddedDigitsValue(p.month, 2);
    PaddedDigitsValue(q.month, 2);
    DigitsOrder(yp, yq);
    DigitsOrder(mp, mq);
    assert Format(p) == yp + ("-" + mp) && Format(q) == yq + ("-" + mq);
    LessConcat(yp, "-" + mp, yq, "-" + mq);
    assert Less("-" + mp, "-" + mq) <==> Less(mp, mq) by {
      assert ("-" + mp)[1..] == mp && ("-" + mq)[1..] == mq;
    }
    if Format(p) == Format(q) {
      FormatParts(p);
      FormatParts(q);
    }
  }
}
