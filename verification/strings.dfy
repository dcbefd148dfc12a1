/** Byte-wise string order (PHP's comparison of two non-numeric strings), sorting
    without duplicates (what `ksort` does to the keys of an array), and the decimal
    form PHP gives an integer when it is cast to a string. */
module Strings {

  /** `a` sorts strictly before `b`: a proper prefix of `b`, or smaller at the
      first position where the two differ. */
  predicate Below(a: string, b: string)
    decreases |a|
  {
    |b| > 0 && (|a| == 0 || a[0] < b[0] || (a[0] == b[0] && Below(a[1..], b[1..])))
  }

  lemma {:induction false} BelowIrreflexive(a: string)
    ensures !Below(a, a)
    decreases |a|
  {
    if |a| > 0 {
      BelowIrreflexive(a[1..]);
    }
  }

  lemma {:induction false} BelowTransitive(a: string, b: string, c: string)
    requires Below(a, b) && Below(b, c)
    ensures Below(a, c)
    decreases |a|
  {
    if |a| > 0 && a[0] == b[0] && b[0] == c[0] {
      BelowTransitive(a[1..], b[1..], c[1..]);
    }
  }

  lemma {:induction false} BelowTotal(a: string, b: string)
    requires a != b
    ensures Below(a, b) || Below(b, a)
    decreases |a|
  {
    if |a| > 0 && |b| > 0 && a[0] == b[0] {
      assert a == [a[0]] + a[1..] && b == [b[0]] + b[1..];
      BelowTotal(a[1..], b[1..]);
    }
  }

  lemma BelowAsymmetric(a: string, b: string)
    requires Below(a, b)
    ensures !Below(b, a)
  {
    if Below(b, a) {
      BelowTransitive(a, b, a);
      BelowIrreflexive(a);
    }
  }

  /** Strictly ascending, hence free of duplicates. */
  predicate StrictlySorted(s: seq<string>) {
    forall i, j :: 0 <= i < j < |s| ==> Below(s[i], s[j])
  }

  /** Inserts `x` into its place in a strictly sorted sequence; a key that is
      already there is not inserted again. */
  function Insert(x: string, s: seq<string>): (r: seq<string>)
    requires StrictlySorted(s)
    ensures StrictlySorted(r)
    ensures forall y :: y in r <==> y == x || y in s
    ensures x in s ==> r == s
    ensures x !in s ==> |r| == |s| + 1
  {
    if |s| == 0 then [x]
    else if x == s[0] then s
    else if Below(x, s[0]) then
      forall j | 0 <= j < |s|
        ensures Below(x, s[j])
      {
        if j > 0 { BelowTransitive(x, s[0], s[j]); }
      }
      BelowIrreflexive(x);
      [x] + s
    else
      BelowTotal(x, s[0]);
      var rest := Insert(x, s[1..]);
      forall y | y in rest
        ensures Below(s[0], y)
      {
        if y != x {
          var j :| 0 <= j < |s[1..]| && s[1..][j] == y;
          assert s[j + 1] == y;
        }
      }
      [s[0]] + rest
  }

  /** The distinct elements of `xs` in ascending order. */
  function SortDistinct(xs: seq<string>): (r: seq<string>)
    ensures StrictlySorted(r)
    ensures forall y :: y in r <==> y in xs
    ensures |r| <= |xs|
  {
    if |xs| == 0 then [] else Insert(xs[0], SortDistinct(xs[1..]))
  }

  /** A strictly sorted sequence is determined by the set of its elements. */
  lemma {:induction false} SortedUnique(a: seq<string>, b: seq<string>)
    requires StrictlySorted(a) && StrictlySorted(b)
    requires forall y :: y in a <==> y in b
    ensures a == b
    decreases |a|
  {
    assert |a| > 0 ==> a[0] in b;
    assert |b| > 0 ==> b[0] in a;
    if |a| > 0 {
      if a[0] != b[0] {
        var k :| 0 <= k < |b| && b[k] == a[0];
        var m :| 0 <= m < |a| && a[m] == b[0];
        assert Below(b[0], a[0]);
        assert Below(a[0], b[0]);
        BelowAsymmetric(a[0], b[0]);
      }
      forall y
        ensures y in a[1..] <==> y in b[1..]
      {
        if y in a[1..] {
          var j :| 0 <= j < |a[1..]| && a[1..][j] == y;
          assert Below(a[0], a[j + 1]);
          BelowIrreflexive(a[0]);
          assert y in b;
        }
        if y in b[1..] {
          var j :| 0 <= j < |b[1..]| && b[1..][j] == y;
          assert Below(b[0], b[j + 1]);
          BelowIrreflexive(b[0]);
          assert y in a;
        }
      }
      SortedUnique(a[1..], b[1..]);
      assert a == [a[0]] + a[1..] && b == [b[0]] + b[1..];
    }
  }

  /** Sorting away duplicates looks only at which strings occur: neither the
      order nor the repetitions of `xs` matter. */
  lemma SortDistinctIgnoresOrder(xs: seq<string>, ys: seq<string>)
    requires forall y :: y in xs <==> y in ys
    ensures SortDistinct(xs) == SortDistinct(ys)
  {
    SortedUnique(SortDistinct(xs), SortDistinct(ys));
  }

  // ---------------------------------------------------------------------------
  // Decimal form of an integer

  predicate IsDigit(c: char) {
    '0' <= c <= '9'
  }

  function DigitChar(d: nat): (c: char)
    requires d < 10
    ensures IsDigit(c)
  {
    "0123456789"[d]
  }

  function DigitValue(c: char): (d: nat)
    requires IsDigit(c)
    ensures d < 10
  {
    (c as int - '0' as int) as nat
  }

  /** Decimal digits of `n`, most significant first, with no leading zero. */
  function NatDigits(n: nat): (r: string)
    ensures |r| > 0
    ensures forall i :: 0 <= i < |r| ==> IsDigit(r[i])
    ensures r[0] == '0' ==> n == 0 && |r| == 1
    decreases n
  {
    if n < 10 then [DigitChar(n)] else NatDigits(n / 10) + [DigitChar(n % 10)]
  }

  /** PHP's `(string)` of an integer: a minus sign exactly for negative
      integers, then the digits in canonical form. */
  function DecimalString(i: int): (r: string)
    ensures IsCanonicalDecimal(r)
    ensures |r| > 0 && (r[0] == '-' <==> i < 0)
  {
    if i < 0 then
      var digits := NatDigits(-i);
      var r := "-" + digits;
      assert r[1..] == digits;
      r
    else
      NatDigits(i)
  }

  /** Reads decimal digits back into a number (the partner of `NatDigits`). */
  function ParseNat(s: string): nat
    requires forall i :: 0 <= i < |s| ==> IsDigit(s[i])
    decreases |s|
  {
    if |s| == 0 then 0 else ParseNat(s[..|s| - 1]) * 10 + DigitValue(s[|s| - 1])
  }

  predicate IsDecimal(s: string) {
    if |s| > 0 && s[0] == '-' then
      |s| > 1 && forall i :: 1 <= i < |s| ==> IsDigit(s[i])
    else
      |s| > 0 && forall i :: 0 <= i < |s| ==> IsDigit(s[i])
  }

  /** A decimal numeral without redundant characters: no leading zero in
      front of other digits, and no minus sign in front of zero. */
  predicate IsCanonicalDecimal(s: string) {
    IsDecimal(s) &&
    (if s[0] == '-' then s[1] != '0' else s[0] == '0' ==> |s| == 1)
  }

  function ParseDecimal(s: string): int
    requires IsDecimal(s)
  {
    if s[0] == '-' then
      var n: int := ParseNat(s[1..]);
      -n
    else
      ParseNat(s)
  }

  lemma {:induction false} NatDigitsRoundTrip(n: nat)
    ensures ParseNat(NatDigits(n)) == n
    decreases n
  {
    if n >= 10 {
      var r := NatDigits(n);
      assert r[..|r| - 1] == NatDigits(n / 10);
      NatDigitsRoundTrip(n / 10);
    }
  }

  /** The decimal form of an integer is well formed and reads back as the same integer. */
  lemma DecimalRoundTrip(i: int)
    ensures IsDecimal(DecimalString(i))
    ensures ParseDecimal(DecimalString(i)) == i
  {
    var digits := NatDigits(if i < 0 then -i else i);
    NatDigitsRoundTrip(if i < 0 then -i else i);
    if i < 0 {
      var r := "-" + digits;
      assert r == DecimalString(i);
      assert r[1..] == digits;
      assert forall k :: 1 <= k < |r| ==> r[k] == digits[k - 1];
    } else {
      assert digits == DecimalString(i);
      assert digits[0] != '-';
    }
  }
}
