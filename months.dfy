/** Month buckets and their display labels.

    Every report keys its monthly dictionaries by the label
    `f"{month:02d}, {year}"` and later re-sorts its table latest month first
    by parsing that label back with the format `'%m, %Y'`. */
module Months {
  import opened Wrappers

  /** A (year, month) bucket as reported by the analytics source. */
  datatype Month = Month(year: nat, month: nat)

  /** Strictly later in calendar order (year first, then month). */
  predicate Later(a: Month, b: Month) {
    a.year > b.year || (a.year == b.year && a.month > b.month)
  }

  predicate IsDigit(c: char) { '0' <= c <= '9' }

  function DigitChar(d: nat): (c: char)
    requires d < 10
    ensures IsDigit(c)
  {
    ('0' as int + d) as char
  }

  function DigitValue(c: char): nat
    requires IsDigit(c)
  {
    (c as int - '0' as int) as nat
  }

  /** Python's `str(n)` for a non-negative integer. */
  function Decimal(n: nat): (s: string)
    ensures |s| >= 1
    ensures forall i :: 0 <= i < |s| ==> IsDigit(s[i])
  {
    if n < 10 then [DigitChar(n)] else Decimal(n / 10) + [DigitChar(n % 10)]
  }

  /** The value of a string of decimal digits. */
  function DecimalValue(s: string): nat
    requires forall i :: 0 <= i < |s| ==> IsDigit(s[i])
  {
    if |s| == 0 then 0 else 10 * DecimalValue(s[..|s| - 1]) + DigitValue(s[|s| - 1])
  }

  /** `f"{n:02d}"`: at least two digits, zero padded on the left. */
  function Pad2(n: nat): (s: string)
    ensures forall i :: 0 <= i < |s| ==> IsDigit(s[i])
  {
    if n < 10 then ['0'] + Decimal(n) else Decimal(n)
  }

  /** The "Month-Year" label used as dictionary key and first table column. */
  function Label(m: Month): string {
    Pad2(m.month) + ", " + Decimal(m.year)
  }

  /** `strptime(s, '%m, %Y')` on the labels this program writes: two digits
      for a month 01-12, a comma and a space, four digits for the year.
      Anything else is a parse error (None). */
  function ParseLabel(s: string): (r: Option<Month>)
    ensures r.Some? ==> 1 <= r.value.month <= 12 && 1000 <= r.value.year
  {
    if |s| == 8 && IsDigit(s[0]) && IsDigit(s[1]) && s[2] == ',' && s[3] == ' '
       && IsDigit(s[4]) && IsDigit(s[5]) && IsDigit(s[6]) && IsDigit(s[7])
    then
      var month := DecimalValue(s[..2]);
      var year := DecimalValue(s[4..]);
      if 1 <= month <= 12 && 1000 <= year then Some(Month(year, month)) else None
    else None
  }

  lemma {:induction false} DecimalRoundTrip(n: nat)
    ensures DecimalValue(Decimal(n)) == n
  {
    if n >= 10 {
      var s := Decimal(n);
      assert s[..|s| - 1] == Decimal(n / 10);
      DecimalRoundTrip(n / 10);
    }
  }

  lemma DecimalOfFourDigits(y: nat)
    requires 1000 <= y <= 9999
    ensures |Decimal(y)| == 4
  {
    assert Decimal(y / 1000) == [DigitChar(y / 1000)];
    assert |Decimal(y / 100)| == 2;
    assert |Decimal(y / 10)| == 3;
  }

  lemma DecimalOfTwoDigits(m: nat)
    requires 10 <= m <= 99
    ensures |Decimal(m)| == 2
  {
    assert Decimal(m / 10) == [DigitChar(m / 10)];
  }

  /** Parsing a label with '%m, %Y' gives back the bucket it was made from,
      for every month 1-12 of a four-digit year: sorting on the parsed date
      is sorting on (year, month). */
  lemma ParseLabelRoundTrip(m: Month)
    requires 1 <= m.month <= 12 && 1000 <= m.year <= 9999
    ensures ParseLabel(Label(m)) == Some(m)
  {
    var p, y := Pad2(m.month), Decimal(m.year);
    var s := Label(m);
    DecimalOfFourDigits(m.year);
    if m.month >= 10 { DecimalOfTwoDigits(m.month); }
    assert |p| == 2;
    assert s[..2] == p && s[4..] == y;
    DecimalRoundTrip(m.year);
    DecimalRoundTrip(m.month);
    if m.month < 10 {
      assert DecimalValue(p) == 10 * DecimalValue(p[..1]) + DigitValue(p[1]);
      assert p[..1] == "0";
      assert p[1..] == Decimal(m.month);
    }
  }

  /** A non-zero number has no leading zero. */
  lemma DecimalLeadingDigit(n: nat)
    requires n >= 1
    ensures Decimal(n)[0] != '0'
  {
    if n >= 10 {
      DecimalLeadingDigit(n / 10);
    }
  }

  lemma DecimalInjective(a: nat, b: nat)
    requires Decimal(a) == Decimal(b)
    ensures a == b
  {
    DecimalRoundTrip(a);
    DecimalRoundTrip(b);
  }

  lemma Pad2Injective(a: nat, b: nat)
    requires Pad2(a) == Pad2(b)
    ensures a == b
  {
    if a < 10 && b >= 10 {
      DecimalLeadingDigit(b);
      assert false;
    } else if b < 10 && a >= 10 {
      DecimalLeadingDigit(a);
      assert false;
    } else if a < 10 && b < 10 {
      assert Decimal(a) == Pad2(a)[1..] == Pad2(b)[1..] == Decimal(b);
      DecimalInjective(a, b);
    } else {
      DecimalInjective(a, b);
    }
  }

  /** Index of the first comma in s (|s| when there is none). */
  function CommaIndex(s: string): (i: nat)
    ensures i <= |s|
  {
    if |s| == 0 || s[0] == ',' then 0 else 1 + CommaIndex(s[1..])
  }

  lemma {:induction false} CommaAfterDigits(x: string, rest: string)
    requires forall i :: 0 <= i < |x| ==> IsDigit(x[i])
    requires |rest| > 0 && rest[0] == ','
    ensures CommaIndex(x + rest) == |x|
  {
    if |x| > 0 {
      assert (x + rest)[1..] == x[1..] + rest;
      CommaAfterDigits(x[1..], rest);
    }
  }

  /** Two digit strings joined by ", " split back uniquely. */
  lemma SplitAtComma(x: string, y: string, x': string, y': string)
    requires forall i :: 0 <= i < |x| ==> IsDigit(x[i])
    requires forall i :: 0 <= i < |x'| ==> IsDigit(x'[i])
    requires x + ", " + y == x' + ", " + y'
    ensures x == x' && y == y'
  {
    var s := x + ", " + y;
    assert s == x + (", " + y) && s == x' + (", " + y');
    CommaAfterDigits(x, ", " + y);
    CommaAfterDigits(x', ", " + y');
    assert x == s[..|x|] == x';
    assert y == s[|x| + 2..] == y';
  }

  /** Distinct buckets have distinct labels, for every month and year: keying
      a dictionary by the label is keying it by the bucket. */
  lemma LabelInjective(a: Month, b: Month)
    requires Label(a) == Label(b)
    ensures a == b
  {
    SplitAtComma(Pad2(a.month), Decimal(a.year), Pad2(b.month), Decimal(b.year));
    Pad2Injective(a.month, b.month);
    DecimalInjective(a.year, b.year);
  }
}
