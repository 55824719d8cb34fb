/** `splitThousands`, the thousands-separator helper that AddNatMusym.py,
    GetNatMusym.py, Test.py and QA_CommonLines.py each carry a copy of:
    reverse `str(n)`, apply `re.sub(r'(\d{3})(?=\d)', r'\1,', ...)`, reverse
    back. The regex substitution is written out as `InsertCommas`; the
    reference definition `Grouped` separates groups of three from the right. */
module Thousands {
  import opened Text

  /** `re.sub(r'(\d{3})(?=\d)', r'\1,', s)`: scanning left to right, each
      run of three digits that is followed by a fourth digit gets a comma
      after it, and scanning resumes after the three. */
  function InsertCommas(s: string): string
    decreases |s|
  {
    if |s| >= 4 && IsDigit(s[0]) && IsDigit(s[1]) && IsDigit(s[2]) && IsDigit(s[3]) then
      s[..3] + "," + InsertCommas(s[3..])
    else if s == [] then
      []
    else
      [s[0]] + InsertCommas(s[1..])
  }

  /** `s[::-1]` */
  function Reverse(s: string): (r: string)
    ensures |r| == |s|
  {
    if s == [] then [] else Reverse(s[1..]) + [s[0]]
  }

  /** `splitThousands(n)` as the source computes it. */
  function SplitThousands(n: int): string {
    Reverse(InsertCommas(Reverse(IntToString(n))))
  }

  /** Reference: the digits of `d` with a comma before every group of three
      counted from the right. */
  function Grouped(d: string): string
    decreases |d|
  {
    if |d| <= 3 then d else Grouped(d[..|d| - 3]) + "," + d[|d| - 3..]
  }

  /** `s` with every comma removed. */
  function RemoveCommas(s: string): string {
    if s == [] then [] else (if s[0] == ',' then [] else [s[0]]) + RemoveCommas(s[1..])
  }

  // ---------------------------------------------------------------------------
  // Reverse

  lemma {:induction false} ReverseAt(s: string, i: nat)
    requires i < |s|
    ensures Reverse(s)[i] == s[|s| - 1 - i]
    decreases |s|
  {
    if i < |s| - 1 {
      ReverseAt(s[1..], i);
    }
  }

  lemma {:induction false} ReverseConcat(a: string, b: string)
    ensures Reverse(a + b) == Reverse(b) + Reverse(a)
    decreases |a|
  {
    if a == [] {
      assert a + b == b;
    } else {
      assert (a + b)[1..] == a[1..] + b;
      ReverseConcat(a[1..], b);
    }
  }

  lemma {:induction false} ReverseReverse(s: string)
    ensures Reverse(Reverse(s)) == s
    decreases |s|
  {
    if s != [] {
      ReverseReverse(s[1..]);
      ReverseConcat(Reverse(s[1..]), [s[0]]);
      assert [s[0]] + s[1..] == s;
    }
  }

  lemma ReverseDigits(s: string)
    requires AllDigits(s)
    ensures AllDigits(Reverse(s))
  {
    forall i | 0 <= i < |s|
      ensures IsDigit(Reverse(s)[i])
    {
      ReverseAt(s, i);
    }
  }

  // ---------------------------------------------------------------------------
  // The regex substitution

  /** Fewer than four characters contain no match. */
  lemma {:induction false} InsertCommasShort(s: string)
    requires |s| < 4
    ensures InsertCommas(s) == s
    decreases |s|
  {
    if s != [] {
      InsertCommasShort(s[1..]);
      assert [s[0]] + s[1..] == s;
    }
  }

  /** A trailing non-digit (the sign of a reversed negative number) never
      takes part in a match. */
  lemma {:induction false} InsertCommasNonDigitEnd(x: string, c: char)
    requires AllDigits(x) && !IsDigit(c)
    ensures InsertCommas(x + [c]) == InsertCommas(x) + [c]
    decreases |x|
  {
    var s := x + [c];
    if |x| >= 4 {
      assert s[..3] == x[..3];
      assert s[3..] == x[3..] + [c];
      InsertCommasNonDigitEnd(x[3..], c);
    } else if x != [] {
      assert s[0] == x[0];
      assert s[1..] == x[1..] + [c];
      InsertCommasNonDigitEnd(x[1..], c);
    } else {
      assert s == [c];
    }
  }

  /** On the digits of a number, reverse/substitute/reverse is grouping
      from the right. */
  lemma {:induction false} GroupedByRegex(d: string)
    requires AllDigits(d)
    ensures Reverse(InsertCommas(Reverse(d))) == Grouped(d)
    decreases |d|
  {
    if |d| <= 3 {
      InsertCommasShort(Reverse(d));
      ReverseReverse(d);
    } else {
      var p, t := d[..|d| - 3], d[|d| - 3..];
      assert d == p + t;
      ReverseConcat(p, t);
      var r := Reverse(d);
      assert r == Reverse(t) + Reverse(p);
      ReverseDigits(d);
      assert r[..3] == Reverse(t);
      assert r[3..] == Reverse(p);
      assert InsertCommas(r) == Reverse(t) + "," + InsertCommas(Reverse(p));
      ReverseConcat(Reverse(t) + ",", InsertCommas(Reverse(p)));
      ReverseConcat(Reverse(t), ",");
      ReverseReverse(t);
      GroupedByRegex(p);
    }
  }

  // ---------------------------------------------------------------------------
  // Properties of the grouping

  lemma {:induction false} RemoveCommasConcat(a: string, b: string)
    ensures RemoveCommas(a + b) == RemoveCommas(a) + RemoveCommas(b)
    decreases |a|
  {
    if a == [] {
      assert a + b == b;
    } else {
      assert (a + b)[1..] == a[1..] + b;
      RemoveCommasConcat(a[1..], b);
    }
  }

  lemma {:induction false} RemoveCommasNone(s: string)
    requires ',' !in s
    ensures RemoveCommas(s) == s
    decreases |s|
  {
    if s != [] {
      RemoveCommasNone(s[1..]);
      assert [s[0]] + s[1..] == s;
    }
  }

  lemma {:induction false} GroupedLength(d: string)
    requires d != []
    ensures |Grouped(d)| == |d| + (|d| - 1) / 3
    decreases |d|
  {
    if |d| > 3 {
      GroupedLength(d[..|d| - 3]);
    }
  }

  lemma {:induction false} GroupedRemoveCommas(d: string)
    requires ',' !in d
    ensures RemoveCommas(Grouped(d)) == d
    decreases |d|
  {
    if |d| <= 3 {
      RemoveCommasNone(d);
    } else {
      var p, t := d[..|d| - 3], d[|d| - 3..];
      assert d == p + t;
      GroupedRemoveCommas(p);
      RemoveCommasConcat(Grouped(p) + ",", t);
      RemoveCommasConcat(Grouped(p), ",");
      RemoveCommasNone(t);
    }
  }

  /** A comma at every fourth position counted from the right end of `g`,
      and nowhere else. */
  predicate CommasEveryFourth(g: string) {
    forall i :: 0 <= i < |g| ==> (g[i] == ',' <==> (|g| - i) % 4 == 0)
  }

  lemma CommasEveryFourthStep(gp: string, t: string)
    requires CommasEveryFourth(gp) && |t| == 3 && ',' !in t
    ensures CommasEveryFourth(gp + "," + t)
  {
    var g := gp + "," + t;
    forall i | 0 <= i < |g|
      ensures g[i] == ',' <==> (|g| - i) % 4 == 0
    {
      if i < |gp| {
        assert g[i] == gp[i];
        assert |g| - i == (|gp| - i) + 4;
      } else if i > |gp| {
        assert g[i] == t[i - |gp| - 1];
        assert 1 <= |g| - i <= 3;
      }
    }
  }

  lemma {:induction false} GroupedCommas(d: string)
    requires ',' !in d
    ensures CommasEveryFourth(Grouped(d))
    decreases |d|
  {
    if |d| > 3 {
      var p, t := d[..|d| - 3], d[|d| - 3..];
      GroupedCommas(p);
      CommasEveryFourthStep(Grouped(p), t);
    } else {
      forall i | 0 <= i < |d|
        ensures d[i] != ',' && (|d| - i) % 4 != 0
      {
        assert 1 <= |d| - i <= 3;
      }
    }
  }

  /** What `splitThousands(n)` returns for `n >= 0`: the digits of `str(n)`
      unchanged once the commas are dropped, a comma at exactly every fourth
      position from the right, so every group between commas has three
      digits except the leftmost, which has one to three. */
  lemma SplitThousandsDigits(n: nat)
    ensures SplitThousands(n) == Grouped(NatToString(n))
    ensures RemoveCommas(SplitThousands(n)) == NatToString(n)
    ensures |SplitThousands(n)| == |NatToString(n)| + (|NatToString(n)| - 1) / 3
    ensures CommasEveryFourth(SplitThousands(n))
  {
    var d := NatToString(n);
    GroupedByRegex(d);
    assert ',' !in d;
    GroupedLength(d);
    GroupedRemoveCommas(d);
    GroupedCommas(d);
  }

  /** Numbers below one thousand get no separator. */
  lemma SplitThousandsSmall(n: nat)
    requires n < 1000
    ensures SplitThousands(n) == NatToString(n)
  {
    SplitThousandsDigits(n);
    var d := NatToString(n);
    if |d| > 3 {
      NatToStringValue(n);
      LeadingDigitBound(d);
    }
  }

  /** A string of four or more digits without a leading zero is at least 1000. */
  lemma {:induction false} LeadingDigitBound(d: string)
    requires AllDigits(d) && |d| >= 4 && d[0] != '0'
    ensures DigitsValue(d) >= 1000
    decreases |d|
  {
    if |d| > 4 {
      LeadingDigitBound(d[..|d| - 1]);
    } else {
      var d1, d2, d3 := d[..1], d[..2], d[..3];
      assert d1[..0] == [];
      assert DigitsValue(d1) == DigitValue(d[0]) >= 1;
      assert d2[..1] == d1;
      assert DigitsValue(d2) >= 10;
      assert d3[..2] == d2;
      assert DigitsValue(d3) >= 100;
      assert d[..3] == d3;
    }
  }

  /** A negative number is its absolute value with the sign in front:
      the sign never receives a separator. */
  lemma SplitThousandsNegative(n: int)
    requires n < 0
    ensures SplitThousands(n) == "-" + SplitThousands(-n)
  {
    var d := NatToString(-n);
    assert IntToString(n) == "-" + d;
    ReverseConcat("-", d);
    ReverseDigits(d);
    InsertCommasNonDigitEnd(Reverse(d), '-');
    ReverseConcat(InsertCommas(Reverse(d)), "-");
  }
}
