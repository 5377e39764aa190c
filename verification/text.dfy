/** The string handling the bot relies on: Python's `str(n)` and `int(s)` for
    the identifiers and amounts it renders and reads back, `str.lower()` for
    the username comparison and `str.strip()` for incoming text. */
module Text {
  import opened Base

  // ---------------------------------------------------------------------
  // Decimal digits
  // ---------------------------------------------------------------------

  predicate IsDigit(c: char) { '0' <= c <= '9' }

  predicate AllDigits(s: string) { forall i :: 0 <= i < |s| ==> IsDigit(s[i]) }

  function DigitChar(d: nat): (c: char)
    requires d < 10
    ensures IsDigit(c)
  {
    ('0' as int + d) as char
  }

  function DigitValue(c: char): (d: nat)
    requires IsDigit(c)
    ensures d < 10 && DigitChar(d) == c
  {
    c as int - '0' as int
  }

  /** The value of a string of decimal digits, most significant digit first. */
  function DigitsValue(s: string): nat
    requires AllDigits(s)
  {
    if |s| == 0 then 0 else DigitsValue(s[..|s| - 1]) * 10 + DigitValue(s[|s| - 1])
  }

  /** `str(n)` for a non-negative `n`: the shortest decimal rendering. */
  function NatToString(n: nat): (s: string)
    ensures |s| > 0 && AllDigits(s)
    ensures s[0] == '0' <==> n == 0
    ensures n == 0 ==> s == "0"
    decreases n
  {
    if n < 10 then [DigitChar(n)] else NatToString(n / 10) + [DigitChar(n % 10)]
  }

  /** `str(n)` for any integer: a minus sign before the digits of `-n`. */
  function IntToString(n: int): (s: string)
    ensures |s| > 0
    ensures s[0] == '-' <==> n < 0
  {
    if n < 0 then "-" + NatToString(-n) else NatToString(n)
  }

  /** A rendered integer holds nothing but digits after an optional sign. */
  lemma IntToStringChars(n: int)
    ensures var s := IntToString(n);
            forall i :: 0 <= i < |s| ==> IsDigit(s[i]) || (i == 0 && s[i] == '-')
  {
    if n < 0 {
      var d := NatToString(-n);
      assert forall i :: 1 <= i < |"-" + d| ==> ("-" + d)[i] == d[i - 1];
    }
  }

  // ---------------------------------------------------------------------
  // Parsing integers
  // ---------------------------------------------------------------------

  /** A non-empty run of ASCII digits. */
  predicate IsDigitRun(s: string) { |s| > 0 && AllDigits(s) }

  /** The literals `int()` accepts in this model: an optional `+` or `-`
      followed by one or more ASCII digits (leading zeros allowed). */
  predicate IsIntLiteral(s: string)
  {
    || IsDigitRun(s)
    || (|s| > 0 && (s[0] == '+' || s[0] == '-') && IsDigitRun(s[1..]))
  }

  /** `int(s)`; `None` stands for the `ValueError` the source catches. */
  function ParseInt(s: string): (r: Option<int>)
    ensures r.Some? <==> IsIntLiteral(s)
    ensures r.Some? && r.value < 0 ==> s[0] == '-'
  {
    if |s| > 0 && (s[0] == '+' || s[0] == '-') then
      if IsDigitRun(s[1..]) then
        var v: int := DigitsValue(s[1..]);
        Some(if s[0] == '-' then -v else v)
      else None
    else if IsDigitRun(s) then Some(DigitsValue(s))
    else None
  }

  lemma {:induction false} DigitsValueOfNatToString(n: nat)
    ensures DigitsValue(NatToString(n)) == n
    decreases n
  {
    if n >= 10 {
      var s := NatToString(n);
      assert s[..|s| - 1] == NatToString(n / 10);
      DigitsValueOfNatToString(n / 10);
    }
  }

  /** Rendering an integer and reading it back yields the integer. */
  lemma IntRoundTrip(n: int)
    ensures ParseInt(IntToString(n)) == Some(n)
  {
    var s := IntToString(n);
    if n < 0 {
      assert s[1..] == NatToString(-n);
      DigitsValueOfNatToString(-n);
    } else {
      DigitsValueOfNatToString(n);
    }
  }

  /** `str` is injective on integers. */
  lemma IntToStringInjective(m: int, n: int)
    ensures IntToString(m) == IntToString(n) <==> m == n
  {
    IntRoundTrip(m);
    IntRoundTrip(n);
  }

  lemma {:induction false} DigitsValuePositive(d: string)
    requires IsDigitRun(d) && d[0] != '0'
    ensures DigitsValue(d) >= 1
    decreases |d|
  {
    if |d| > 1 {
      DigitsValuePositive(d[..|d| - 1]);
    }
  }

  lemma {:induction false} NatToStringOfDigitsValue(d: string)
    requires IsDigitRun(d) && (|d| == 1 || d[0] != '0')
    ensures NatToString(DigitsValue(d)) == d
    decreases |d|
  {
    var p := d[..|d| - 1];
    var last := DigitValue(d[|d| - 1]);
    if |d| == 1 {
      assert DigitsValue(d) == last;
    } else {
      NatToStringOfDigitsValue(p);
      DigitsValuePositive(p);
      var v := DigitsValue(d);
      assert v == DigitsValue(p) * 10 + last;
      assert v / 10 == DigitsValue(p) && v % 10 == last;
      assert d == p + [d[|d| - 1]];
    }
  }

  /** The literals `str` itself produces: no `+`, no leading zero, no `-0`. */
  predicate IsCanonicalIntLiteral(s: string)
  {
    || (IsDigitRun(s) && (|s| == 1 || s[0] != '0'))
    || (|s| > 1 && s[0] == '-' && IsDigitRun(s[1..]) && s[1] != '0')
  }

  /** The converse of the round trip: a canonical literal is exactly the
      rendering of the value it parses to. */
  lemma CanonicalRoundTrip(s: string)
    requires IsCanonicalIntLiteral(s)
    ensures ParseInt(s).Some? && IntToString(ParseInt(s).value) == s
  {
    if s[0] == '-' {
      NatToStringOfDigitsValue(s[1..]);
      DigitsValuePositive(s[1..]);
      assert s == "-" + s[1..];
    } else {
      NatToStringOfDigitsValue(s);
    }
  }

  /** A leading zero adds nothing to the value of a digit string. */
  lemma {:induction false} DigitsValueLeadingZero(d: string)
    requires AllDigits(d)
    ensures AllDigits("0" + d) && DigitsValue("0" + d) == DigitsValue(d)
    decreases |d|
  {
    var z := "0" + d;
    assert forall i :: 0 < i < |z| ==> z[i] == d[i - 1];
    if |d| > 0 {
      var p := d[..|d| - 1];
      assert z[..|z| - 1] == "0" + p;
      DigitsValueLeadingZero(p);
    }
  }

  /** The value `int()` gives every literal it accepts: a run of digits reads
      as its decimal value whatever its leading zeros, `+` keeps it and `-`
      negates it. With `CanonicalRoundTrip` this fixes the value of every
      literal. */
  lemma ParseIntValue(d: string)
    requires IsDigitRun(d)
    ensures ParseInt(d) == Some(DigitsValue(d) as int)
    ensures ParseInt("+" + d) == ParseInt(d)
    ensures ParseInt("-" + d) == Some(-(DigitsValue(d) as int))
    ensures ParseInt("0" + d) == ParseInt(d)
  {
    assert ("+" + d)[1..] == d;
    assert ("-" + d)[1..] == d;
    DigitsValueLeadingZero(d);
  }

  // ---------------------------------------------------------------------
  // Prefixes, case and white space
  // ---------------------------------------------------------------------

  predicate StartsWith(s: string, prefix: string)
  {
    |prefix| <= |s| && s[..|prefix|] == prefix
  }

  /** `str.lower()` restricted to ASCII letters. */
  function LowerChar(c: char): char
  {
    if 'A' <= c <= 'Z' then (c as int + 32) as char else c
  }

  function Lower(s: string): (r: string)
    ensures |r| == |s|
    ensures forall i :: 0 <= i < |s| ==> !('A' <= r[i] <= 'Z')
    ensures forall i :: 0 <= i < |s| && !('A' <= s[i] <= 'Z') ==> r[i] == s[i]
    ensures forall i :: 0 <= i < |s| && 'A' <= s[i] <= 'Z' ==> r[i] as int == s[i] as int + 32
  {
    seq(|s|, i requires 0 <= i < |s| => LowerChar(s[i]))
  }

  /** The characters `str.isspace()` accepts. */
  predicate IsSpace(c: char)
  {
    || c == ' ' || ('\t' <= c <= '\r') || ('\U{1C}' <= c <= '\U{1F}')
    || c == '\U{85}' || c == '\U{A0}' || c == '\U{1680}'
    || ('\U{2000}' <= c <= '\U{200A}') || c == '\U{2028}' || c == '\U{2029}'
    || c == '\U{202F}' || c == '\U{205F}' || c == '\U{3000}'
  }

  function TrimStart(s: string): (r: string)
    ensures |r| <= |s| && r == s[|s| - |r|..]
    ensures forall i :: 0 <= i < |s| - |r| ==> IsSpace(s[i])
    ensures |r| > 0 ==> !IsSpace(r[0])
  {
    if |s| > 0 && IsSpace(s[0]) then TrimStart(s[1..]) else s
  }

  function TrimEnd(s: string): (r: string)
    ensures |r| <= |s| && r == s[..|r|]
    ensures forall i :: |r| <= i < |s| ==> IsSpace(s[i])
    ensures |r| > 0 ==> !IsSpace(r[|r| - 1])
  {
    if |s| > 0 && IsSpace(s[|s| - 1]) then TrimEnd(s[..|s| - 1]) else s
  }

  /** `str.strip()`: `s` with its leading and trailing white space removed;
      what is kept is a contiguous slice of `s` and everything cut off is
      white space. */
  function Strip(s: string): (r: string)
    ensures |r| <= |s|
    ensures exists a :: 0 <= a <= |s| - |r| && s[a..][..|r|] == r
                        && (forall i :: 0 <= i < a ==> IsSpace(s[i]))
                        && (forall i :: a + |r| <= i < |s| ==> IsSpace(s[i]))
    ensures |r| > 0 ==> !IsSpace(r[0]) && !IsSpace(r[|r| - 1])
  {
    var t := TrimStart(s);
    var r := TrimEnd(t);
    var a := |s| - |t|;
    assert s[a..] == t;
    assert s[a..][..|r|] == r;
    r
  }
}
