/** Strings as Python compares and renders them: the lexicographic order of
    `str` (by code point), `sorted(set(...))` of a column of strings, and the
    decimal text `str(n)` of an integer. */
module Text {

  /** Python's `a < b` on `str`: lexicographic by code point, a proper
      prefix being smaller. */
  predicate Less(a: string, b: string)
    decreases |a|
  {
    if a == [] then b != []
    else if b == [] then false
    else a[0] < b[0] || (a[0] == b[0] && Less(a[1..], b[1..]))
  }

  predicate LessEq(a: string, b: string) {
    a == b || Less(a, b)
  }

  lemma {:induction false} LessIrreflexive(a: string)
    ensures !Less(a, a)
    decreases |a|
  {
    if a != [] {
      LessIrreflexive(a[1..]);
    }
  }

  lemma {:induction false} LessTransitive(a: string, b: string, c: string)
    requires Less(a, b) && Less(b, c)
    ensures Less(a, c)
    decreases |a|
  {
    if a != [] && a[0] == b[0] && b[0] == c[0] {
      LessTransitive(a[1..], b[1..], c[1..]);
    }
  }

  lemma {:induction false} LessTotal(a: string, b: string)
    ensures a == b || Less(a, b) || Less(b, a)
    decreases |a|
  {
    if a != [] && b != [] && a[0] == b[0] {
      LessTotal(a[1..], b[1..]);
      if a[1..] == b[1..] {
        assert a == [a[0]] + a[1..] && b == [b[0]] + b[1..];
      }
    }
  }

  lemma {:induction false} LessAsymmetric(a: string, b: string)
    requires Less(a, b)
    ensures !Less(b, a)
  {
    if Less(b, a) {
      LessTransitive(a, b, a);
      LessIrreflexive(a);
    }
  }

  /** Comparing two concatenations whose first parts have equal length
      compares the first parts, and the second parts only on a tie. */
  lemma {:induction false} LessConcat(a: string, c: string, b: string, d: string)
    requires |a| == |b|
    ensures Less(a + c, b + d) <==> Less(a, b) || (a == b && Less(c, d))
    decreases |a|
  {
    if a != [] {
      assert (a + c)[0] == a[0] && (b + d)[0] == b[0];
      assert (a + c)[1..] == a[1..] + c && (b + d)[1..] == b[1..] + d;
      LessConcat(a[1..], c, b[1..], d);
      if a[0] == b[0] && a[1..] == b[1..] {
        assert a == [a[0]] + a[1..] && b == [b[0]] + b[1..];
      }
      if a == b {
        LessIrreflexive(a);
      }
    } else {
      assert a + c == c && b + d == d;
    }
  }

  /** No value occurs twice and each is smaller than the ones after it. */
  predicate StrictlyAscending(s: seq<string>) {
    forall i, j :: 0 <= i < j < |s| ==> Less(s[i], s[j])
  }

  lemma AscendingDistinct(s: seq<string>, i: int, j: int)
    requires StrictlyAscending(s) && 0 <= i < j < |s|
    ensures s[i] != s[j]
  {
    LessIrreflexive(s[i]);
  }

  /** Adds `x` to a strictly ascending sequence, keeping it so. */
  function Insert(xs: seq<string>, x: string): (r: seq<string>)
    requires StrictlyAscending(xs)
    ensures StrictlyAscending(r)
    ensures forall y :: y in r <==> y in xs || y == x
    decreases |xs|
  {
    if xs == [] then [x]
    else if x == xs[0] then xs
    else if Less(x, xs[0]) then
      assert forall j :: 0 <= j < |xs| ==> Less(x, xs[j]) by {
        forall j | 0 < j < |xs| {
          LessTransitive(x, xs[0], xs[j]);
        }
      }
      [x] + xs
    else
      LessTotal(x, xs[0]);
      var rest := Insert(xs[1..], x);
      assert forall y :: y in rest ==> Less(xs[0], y);
      [xs[0]] + rest
  }

  /** `sorted(column.unique())` for a column of strings: the distinct values
      in ascending order. */
  function SortedDistinct(s: seq<string>): (r: seq<string>)
    ensures StrictlyAscending(r)
    ensures forall y :: y in r <==> y in s
  {
    if s == [] then []
    else
      var init := s[..|s| - 1];
      assert s == init + [s[|s| - 1]];
      Insert(SortedDistinct(init), s[|s| - 1])
  }

  lemma SortedDistinctEmpty(s: seq<string>)
    ensures SortedDistinct(s) == [] <==> s == []
  {
    if s != [] {
      assert s[0] in SortedDistinct(s);
    }
  }

  /** A strictly ascending sequence is determined by its elements. */
  lemma {:induction false} AscendingUnique(a: seq<string>, b: seq<string>)
    requires StrictlyAscending(a) && StrictlyAscending(b)
    requires forall y :: y in a <==> y in b
    ensures a == b
    decreases |a|
  {
    if a != [] { assert a[0] in b; }
    if b != [] { assert b[0] in a; }
    if a != [] && b != [] {
      AscendingHeadIsLeast(a, b[0]);
      AscendingHeadIsLeast(b, a[0]);
      LessTotal(a[0], b[0]);
      if a[0] != b[0] {
        LessAsymmetric(a[0], b[0]);
      }
      forall y
        ensures y in a[1..] <==> y in b[1..]
      {
        AscendingTail(a, y);
        AscendingTail(b, y);
      }
      AscendingUnique(a[1..], b[1..]);
      assert a == [a[0]] + a[1..] && b == [b[0]] + b[1..];
    }
  }

  lemma AscendingHeadIsLeast(s: seq<string>, y: string)
    requires StrictlyAscending(s) && y in s
    ensures LessEq(s[0], y)
  {
  }

  lemma AscendingTail(s: seq<string>, y: string)
    requires StrictlyAscending(s) && s != []
    ensures y in s[1..] <==> y in s && y != s[0]
  {
    if y in s && y != s[0] {
      var k :| 0 <= k < |s| && s[k] == y;
      assert s[1..][k - 1] == y;
    }
    if y in s[1..] {
      var k :| 0 <= k < |s[1..]| && s[1..][k] == y;
      assert Less(s[0], s[k + 1]);
      LessIrreflexive(y);
    }
  }

  // ---- decimal digits ----

  predicate IsDigit(c: char) {
    '0' <= c <= '9'
  }

  function DigitValue(c: char): (d: nat)
    requires IsDigit(c)
    ensures d <= 9
  {
    (c as int - '0' as int) as nat
  }

  function DigitChar(d: nat): (c: char)
    requires d <= 9
    ensures IsDigit(c) && DigitValue(c) == d
  {
    ('0' as int + d) as char
  }

  predicate AllDigits(s: string) {
    forall i :: 0 <= i < |s| ==> IsDigit(s[i])
  }

  /** The number a string of decimal digits denotes (`int(s)`). */
  function DigitsValue(s: string): nat
    requires AllDigits(s)
  {
    if s == [] then 0
    else DigitsValue(s[..|s| - 1]) * 10 + DigitValue(s[|s| - 1])
  }

  /** Two digit strings of the same length are ordered as text exactly as
      the numbers they denote are ordered. */
  lemma {:induction false} DigitsOrder(a: string, b: string)
    requires AllDigits(a) && AllDigits(b) && |a| == |b|
    ensures Less(a, b) <==> DigitsValue(a) < DigitsValue(b)
    ensures a == b <==> DigitsValue(a) == DigitsValue(b)
    decreases |a|
  {
    if a != [] {
      var n := |a| - 1;
      var a', b' := a[..n], b[..n];
      assert a == a' + [a[n]] && b == b' + [b[n]];
      DigitsOrder(a', b');
      LessConcat(a', [a[n]], b', [b[n]]);
      assert Less([a[n]], [b[n]]) <==> a[n] < b[n] by {
        assert [a[n]][1..] == [] && [b[n]][1..] == [];
      }
      LessTotal(a', b');
    }
  }

  /** The `width` lowest decimal digits of `n`, zero-padded on the left
      (the `%04d` / `%02d` rendering used by `strftime`). */
  function PaddedDigits(n: nat, width: nat): (s: string)
    ensures |s| == width && AllDigits(s)
  {
    if width == 0 then []
    else PaddedDigits(n / 10, width - 1) + [DigitChar(n % 10)]
  }

  function Pow10(k: nat): (p: nat)
    ensures p >= 1
  {
    if k == 0 then 1 else 10 * Pow10(k - 1)
  }

  lemma {:induction false} PaddedDigitsValue(n: nat, width: nat)
    requires n < Pow10(width)
    ensures DigitsValue(PaddedDigits(n, width)) == n
  {
    if width > 0 {
      var s := PaddedDigits(n, width);
      assert s[..|s| - 1] == PaddedDigits(n / 10, width - 1);
      PaddedDigitsValue(n / 10, width - 1);
    }
  }

  /** Rendering the value of a digit string at its own width gives the
      string back. */
  lemma {:induction false} PaddedDigitsOfValue(s: string)
    requires AllDigits(s)
    ensures PaddedDigits(DigitsValue(s), |s|) == s
  {
    if s != [] {
      var init := s[..|s| - 1];
      var v := DigitsValue(s);
      assert v / 10 == DigitsValue(init) && v % 10 == DigitValue(s[|s| - 1]);
      PaddedDigitsOfValue(init);
      assert DigitChar(DigitValue(s[|s| - 1])) == s[|s| - 1];
      assert s == init + [s[|s| - 1]];
    }
  }

  /** The decimal digits of `n` without leading zeros. */
  function NatDigits(n: nat): (s: string)
    ensures s != [] && AllDigits(s)
  {
    if n < 10 then [DigitChar(n)]
    else NatDigits(n / 10) + [DigitChar(n % 10)]
  }

  lemma {:induction false} NatDigitsValue(n: nat)
    ensures DigitsValue(NatDigits(n)) == n
  {
    var s := NatDigits(n);
    if n >= 10 {
      assert s[..|s| - 1] == NatDigits(n / 10);
      NatDigitsValue(n / 10);
    }
  }

  /** Python's `str(n)` for an integer. */
  function IntToString(n: int): (s: string)
    ensures s != [] && (s[0] == '-' <==> n < 0)
  {
    if n < 0 then "-" + NatDigits(-n) else NatDigits(n)
  }

  /** `str` is injective on integers: distinct numeric codes stay distinct
      once rendered as text. */
  lemma IntToStringInjective(m: int, n: int)
    requires IntToString(m) == IntToString(n)
    ensures m == n
  {
    var sm, sn := IntToString(m), IntToString(n);
    if m < 0 {
      assert sm[1..] == NatDigits(-m) && sn[1..] == NatDigits(-n);
      NatDigitsValue(-m);
      NatDigitsValue(-n);
    } else {
      NatDigitsValue(m);
      NatDigitsValue(n);
    }
  }
}
