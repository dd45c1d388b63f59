/** String helpers the scripts take from Python's `str`: whitespace
    stripping, lower-casing and decimal rendering of integers, restricted
    to ASCII. */
module Text {

  /** The ASCII characters for which Python's `str.isspace()` holds:
      space, tab, line feed, vertical tab, form feed, carriage return and
      the four separators 0x1C to 0x1F. */
  predicate IsSpace(c: char) {
    c == ' ' || (9 <= c as int <= 13) || (28 <= c as int <= 31)
  }

  /** Every character of `s` in positions `lo` up to `hi` is whitespace. */
  predicate SpaceBetween(s: string, lo: int, hi: int)
    requires 0 <= lo <= hi <= |s|
  {
    forall k | lo <= k < hi :: IsSpace(s[k])
  }

  predicate AllSpace(s: string) {
    SpaceBetween(s, 0, |s|)
  }

  /** Number of whitespace characters `s` starts with. */
  function LeadingSpace(s: string): (n: nat)
    ensures n <= |s|
  {
    if |s| > 0 && IsSpace(s[0]) then 1 + LeadingSpace(s[1..]) else 0
  }

  /** `str.rstrip()`: `s` without its trailing whitespace. */
  function TrimEnd(s: string): string {
    if |s| > 0 && IsSpace(s[|s| - 1]) then TrimEnd(s[..|s| - 1]) else s
  }

  /** `str.strip()`: `s` without whitespace at either end. */
  function Strip(s: string): string {
    if |s| > 0 && IsSpace(s[0]) then Strip(s[1..]) else TrimEnd(s)
  }

  /** `TrimEnd` keeps a prefix and drops only whitespace after it. */
  lemma {:induction false} TrimEndShape(s: string)
    ensures var r := TrimEnd(s);
      && |r| <= |s| && r == s[..|r|] && SpaceBetween(s, |r|, |s|)
      && (|r| > 0 ==> !IsSpace(r[|r| - 1]))
  {
    if |s| > 0 && IsSpace(s[|s| - 1]) {
      var init := s[..|s| - 1];
      TrimEndShape(init);
      var r := TrimEnd(init);
      assert r == s[..|r|];
      forall k | |r| <= k < |s| ensures IsSpace(s[k]) {
        if k < |s| - 1 { assert s[k] == init[k]; }
      }
    }
  }

  /** `Strip` keeps the slice of `s` between its leading and its trailing
      whitespace, and that slice neither starts nor ends with whitespace. */
  lemma {:induction false} StripShape(s: string)
    ensures var i := LeadingSpace(s); var r := Strip(s);
      && i + |r| <= |s| && r == s[i..i + |r|]
      && SpaceBetween(s, 0, i) && SpaceBetween(s, i + |r|, |s|)
      && (|r| > 0 ==> !IsSpace(r[0]) && !IsSpace(r[|r| - 1]))
  {
    if |s| > 0 && IsSpace(s[0]) {
      var tail := s[1..];
      StripShape(tail);
      var j := LeadingSpace(tail);
      var r := Strip(tail);
      assert r == s[1 + j..1 + j + |r|];
      forall k | 0 <= k < 1 + j ensures IsSpace(s[k]) {
        if k > 0 { assert s[k] == tail[k - 1]; }
      }
      forall k | 1 + j + |r| <= k < |s| ensures IsSpace(s[k]) {
        assert s[k] == tail[k - 1];
      }
    } else {
      TrimEndShape(s);
    }
  }

  /** Stripping twice is stripping once. */
  lemma StripIdempotent(s: string)
    ensures Strip(Strip(s)) == Strip(s)
  {
    var r := Strip(s);
    StripShape(s);
    if |r| > 0 {
      assert TrimEnd(r) == r;
    }
  }

  /** A stripped value is empty exactly when the input is all whitespace. */
  lemma StripEmptyIff(s: string)
    ensures Strip(s) == "" <==> AllSpace(s)
  {
    StripShape(s);
    var i := LeadingSpace(s);
    if Strip(s) != "" {
      assert !IsSpace(s[i]);
    }
  }

  function LowerChar(c: char): char {
    if 'A' <= c <= 'Z' then (c as int - 'A' as int + 'a' as int) as char else c
  }

  /** `str.lower()` on ASCII letters; every other character is kept. */
  function Lower(s: string): string {
    if |s| == 0 then [] else [LowerChar(s[0])] + Lower(s[1..])
  }

  /** Lower-casing maps each character on its own and keeps the length. */
  lemma {:induction false} LowerShape(s: string)
    ensures |Lower(s)| == |s|
    ensures forall k | 0 <= k < |s| :: Lower(s)[k] == LowerChar(s[k])
  {
    if |s| > 0 {
      LowerShape(s[1..]);
      assert forall k | 1 <= k < |s| :: Lower(s)[k] == Lower(s[1..])[k - 1];
    }
  }

  predicate IsDigit(c: char) {
    '0' <= c <= '9'
  }

  predicate AllDigits(s: string) {
    forall k | 0 <= k < |s| :: IsDigit(s[k])
  }

  function DigitChar(d: nat): (c: char)
    requires d < 10
    ensures IsDigit(c) && c as int - '0' as int == d
  {
    (d + '0' as int) as char
  }

  /** The number a string of decimal digits denotes. */
  function DecimalValue(s: string): nat
    requires AllDigits(s)
  {
    if |s| == 0 then 0
    else 10 * DecimalValue(s[..|s| - 1]) + (s[|s| - 1] as int - '0' as int)
  }

  /** Python's `str(n)` for a natural number: its shortest decimal digits. */
  function NatToDecimal(n: nat): (s: string)
    ensures |s| >= 1 && AllDigits(s)
    ensures s[0] == '0' ==> s == "0"
  {
    if n < 10 then [DigitChar(n)] else NatToDecimal(n / 10) + [DigitChar(n % 10)]
  }

  /** Reading the digits back gives the number that was rendered. */
  lemma {:induction false} DecimalRoundTrip(n: nat)
    ensures DecimalValue(NatToDecimal(n)) == n
  {
    if n >= 10 {
      var s := NatToDecimal(n);
      DecimalRoundTrip(n / 10);
      assert s[..|s| - 1] == NatToDecimal(n / 10);
    }
  }

  /** Python's `str(i)` (and an f-string's `{i}`) for an integer. */
  function IntToDecimal(i: int): (s: string)
    ensures |s| >= 1
    ensures i < 0 <==> s[0] == '-'
  {
    if i < 0 then "-" + NatToDecimal(-i) else NatToDecimal(i)
  }

  /** Distinct naturals render to distinct digit strings. */
  lemma NatToDecimalInjective(m: nat, n: nat)
    requires NatToDecimal(m) == NatToDecimal(n)
    ensures m == n
  {
    DecimalRoundTrip(m);
    DecimalRoundTrip(n);
  }

  /** Distinct integers render to distinct strings. */
  lemma IntToDecimalInjective(i: int, j: int)
    requires IntToDecimal(i) == IntToDecimal(j)
    ensures i == j
  {
    var s := IntToDecimal(i);
    if i < 0 {
      assert j < 0;
      assert NatToDecimal(-i) == s[1..] == NatToDecimal(-j);
      NatToDecimalInjective(-i, -j);
    } else {
      NatToDecimalInjective(i, j);
    }
  }
}
