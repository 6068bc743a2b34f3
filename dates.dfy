/**
 * ISO calendar dates ("YYYY-MM-DD") as the script stores them in the due
 * column: it never parses them to compare, it compares the strings.  This
 * module shows that, for well-formed ISO dates, comparing the strings is
 * comparing the dates.
 */
module Dates {
  import opened Text

  predicate IsDigit(c: char)
  {
    '0' <= c <= '9'
  }

  predicate AllDigits(s: string)
  {
    forall i :: 0 <= i < |s| ==> IsDigit(s[i])
  }

  function Pow10(n: nat): (r: nat)
    ensures r >= 1
  {
    if n == 0 then 1 else 10 * Pow10(n - 1)
  }

  /** The value of a string of decimal digits. */
  function Num(s: string): (r: nat)
    requires AllDigits(s)
    ensures r < Pow10(|s|)
  {
    if s == [] then 0
    else
      assert IsDigit(s[0]);
      var d := s[0] as int - '0' as int;
      var p := Pow10(|s| - 1);
      assert AllDigits(s[1..]) by {
        forall i | 0 <= i < |s| - 1
          ensures IsDigit(s[1..][i])
        {
          assert s[1..][i] == s[i + 1];
        }
      }
      var rest := Num(s[1..]);
      DigitBound(d, p, rest);
      assert Pow10(|s|) == 10 * p;
      d * p + rest
  }

  /** A digit times p, plus less than p, stays below ten times p. */
  lemma DigitBound(d: nat, p: nat, rest: nat)
    requires d <= 9 && rest < p
    ensures 0 <= d * p + rest < 10 * p
  {
    var k: nat := 9 - d;
    assert 10 * p == d * p + p + k * p;
  }

  lemma {:induction false} MulAtLeast(k: nat, p: nat)
    requires k >= 1
    ensures k * p >= p
  {
    if k > 1 {
      MulAtLeast(k - 1, p);
      assert k * p == (k - 1) * p + p;
    }
  }

  /** A smaller leading digit makes a smaller number, whatever follows. */
  lemma LeadingDigit(d: nat, e: nat, p: nat, x: nat, y: nat)
    requires d < e && x < p
    ensures d * p + x < e * p + y
  {
    var k: nat := e - d;
    MulAtLeast(k, p);
    assert e * p == d * p + k * p;
  }

  /** For digit strings of the same length, string order is numeric order. */
  lemma {:induction false} DigitsOrder(a: string, b: string)
    requires AllDigits(a) && AllDigits(b) && |a| == |b|
    ensures StrLess(a, b) <==> Num(a) < Num(b)
  {
    if a != [] {
      var da, db := a[0] as int - '0' as int, b[0] as int - '0' as int;
      var p := Pow10(|a| - 1);
      assert Num(a) == da * p + Num(a[1..]) && Num(b) == db * p + Num(b[1..]);
      if da < db {
        LeadingDigit(da, db, p, Num(a[1..]), Num(b[1..]));
      } else if db < da {
        LeadingDigit(db, da, p, Num(b[1..]), Num(a[1..]));
      } else {
        DigitsOrder(a[1..], b[1..]);
      }
    }
  }

  /** Digit strings of the same length with the same value are equal. */
  lemma DigitsInjective(a: string, b: string)
    requires AllDigits(a) && AllDigits(b) && |a| == |b|
    requires Num(a) == Num(b)
    ensures a == b
  {
    if a != b {
      StrLessTotal(a, b);
      DigitsOrder(a, b);
      DigitsOrder(b, a);
    }
  }

  /** "YYYY-MM-DD", the form date.isoformat() produces. */
  predicate IsIsoDate(s: string)
  {
    && |s| == 10
    && AllDigits(s[..4]) && s[4] == '-'
    && AllDigits(s[5..7]) && s[7] == '-'
    && AllDigits(s[8..])
  }

  /** An ISO date has no surrounding white space, so strip() keeps it. */
  lemma IsoDateStripped(s: string)
    requires IsIsoDate(s)
    ensures Strip(s) == s
  {
    assert s[0] == s[..4][0] && IsDigit(s[0]);
    assert s[9] == s[8..][1] && IsDigit(s[9]);
    StripUnchanged(s);
  }

  function Year(s: string): nat
    requires IsIsoDate(s)
  {
    Num(s[..4])
  }

  function Month(s: string): nat
    requires IsIsoDate(s)
  {
    Num(s[5..7])
  }

  function Day(s: string): nat
    requires IsIsoDate(s)
  {
    Num(s[8..])
  }

  /** Calendar order: year first, then month, then day. */
  predicate EarlierDate(a: string, b: string)
    requires IsIsoDate(a) && IsIsoDate(b)
  {
    || Year(a) < Year(b)
    || (Year(a) == Year(b) && Month(a) < Month(b))
    || (Year(a) == Year(b) && Month(a) == Month(b) && Day(a) < Day(b))
  }

  /** Comparing two equal-length digit fields as strings or as numbers
      gives the same answer, equality included. */
  lemma FieldOrder(a: string, b: string)
    requires AllDigits(a) && AllDigits(b) && |a| == |b|
    ensures StrLess(a, b) <==> Num(a) < Num(b)
    ensures a == b <==> Num(a) == Num(b)
  {
    DigitsOrder(a, b);
    if Num(a) == Num(b) {
      DigitsInjective(a, b);
    }
  }

  /** The ISO string order the script uses is the calendar order. */
  lemma IsoOrderIsCalendarOrder(a: string, b: string)
    requires IsIsoDate(a) && IsIsoDate(b)
    ensures StrLess(a, b) <==> EarlierDate(a, b)
  {
    var dash: string := "-";
    var a1, a2, a3 := a[..4], a[5..7], a[8..];
    var b1, b2, b3 := b[..4], b[5..7], b[8..];
    assert a == a1 + (dash + (a2 + (dash + a3)));
    assert b == b1 + (dash + (b2 + (dash + b3)));
    StrLessConcat(a1, dash + (a2 + (dash + a3)), b1, dash + (b2 + (dash + b3)));
    StrLessConcat(dash, a2 + (dash + a3), dash, b2 + (dash + b3));
    StrLessConcat(a2, dash + a3, b2, dash + b3);
    StrLessConcat(dash, a3, dash, b3);
    StrLessIrreflexive(dash);
    FieldOrder(a1, b1);
    FieldOrder(a2, b2);
    FieldOrder(a3, b3);
  }
}
