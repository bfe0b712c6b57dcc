/**
  The string primitives the inventory screen relies on: ASCII lower-casing
  (`toLowerCase`), ASCII-whitespace trimming (`trim`), substring search
  (`includes`) and the numeral search of the regular expression
  `/(\d+(\.\d+)?)/` together with the decimal value `parseFloat` gives it.
*/
module Text {
  import opened Wrappers

  // ---------------------------------------------------------------- case

  predicate IsUpper(c: char) {
    'A' <= c <= 'Z'
  }

  function LowerChar(c: char): char {
    if IsUpper(c) then (c as int + 32) as char else c
  }

  /** `s.toLowerCase()`, restricted to the ASCII letters. */
  function Lower(s: string): (r: string)
    ensures |r| == |s| && forall i :: 0 <= i < |s| ==> r[i] == LowerChar(s[i])
  {
    if s == [] then [] else [LowerChar(s[0])] + Lower(s[1..])
  }

  /** Lower-casing keeps the length and leaves no upper-case letter; doing it twice changes nothing. */
  lemma LowerProperties(s: string)
    ensures |Lower(s)| == |s|
    ensures forall i :: 0 <= i < |s| ==> !IsUpper(Lower(s)[i])
    ensures Lower(Lower(s)) == Lower(s)
  {
    var a, b := Lower(Lower(s)), Lower(s);
    forall k | 0 <= k < |a| ensures a[k] == b[k] {
    }
  }

  /** Lower-casing commutes with taking a slice. */
  lemma LowerSlice(s: string, i: int, j: int)
    requires 0 <= i <= j <= |s|
    ensures Lower(s)[i..j] == Lower(s[i..j])
  {
    var a, b := Lower(s)[i..j], Lower(s[i..j]);
    forall k | 0 <= k < |a| ensures a[k] == b[k] {
      assert a[k] == Lower(s)[i + k] == LowerChar(s[i + k]);
      assert b[k] == LowerChar(s[i..j][k]);
    }
    assert a == b;
  }

  // ---------------------------------------------------------------- substring

  /** `t` occurs in `s` starting at position `i`. */
  predicate OccursAt(s: string, t: string, i: int) {
    0 <= i <= |s| - |t| && s[i..i + |t|] == t
  }

  /** `s.includes(t)`: `t` occurs in `s`, searching from the left (the empty string occurs everywhere). */
  predicate Contains(s: string, t: string)
    decreases |s|
  {
    |t| <= |s| && (s[..|t|] == t || Contains(s[1..], t))
  }

  /** `Contains` holds exactly when there is a position at which `t` occurs. */
  lemma {:induction false} ContainsIff(s: string, t: string)
    ensures Contains(s, t) <==> exists i :: OccursAt(s, t, i)
    decreases |s|
  {
    if |t| <= |s| {
      if s[..|t|] == t {
        assert OccursAt(s, t, 0);
      } else {
        ContainsIff(s[1..], t);
        if exists i :: OccursAt(s[1..], t, i) {
          var i :| OccursAt(s[1..], t, i);
          assert s[1..][i..i + |t|] == s[i + 1..i + 1 + |t|];
          assert OccursAt(s, t, i + 1);
        }
        if exists i :: OccursAt(s, t, i) {
          var i :| OccursAt(s, t, i);
          assert i != 0;
          assert s[1..][i - 1..i - 1 + |t|] == s[i..i + |t|];
          assert OccursAt(s[1..], t, i - 1);
        }
      }
    }
  }

  /** An occurrence of `t` in `s` is also an occurrence after lower-casing both: matching is case-insensitive. */
  lemma ContainsLower(s: string, t: string)
    requires Contains(s, t)
    ensures Contains(Lower(s), Lower(t))
  {
    ContainsIff(s, t);
    var i :| OccursAt(s, t, i);
    LowerSlice(s, i, i + |t|);
    assert OccursAt(Lower(s), Lower(t), i);
    ContainsIff(Lower(s), Lower(t));
  }

  /** A string lacking some character of `t` cannot contain `t`. */
  lemma NotContainsByChar(s: string, t: string, c: char)
    requires c in t && c !in s
    ensures !Contains(s, t)
  {
    var k :| 0 <= k < |t| && t[k] == c;
    forall i | 0 <= i <= |s| - |t|
      ensures !OccursAt(s, t, i)
    {
      assert s[i..i + |t|][k] == s[i + k] && s[i + k] in s;
    }
    ContainsIff(s, t);
  }

  /** Occurrences survive putting text before and after. */
  lemma ContainsInContext(a: string, b: string, c: string, t: string)
    requires Contains(b, t)
    ensures Contains(a + b + c, t)
  {
    ContainsIff(b, t);
    var i :| OccursAt(b, t, i);
    assert (a + b + c)[|a| + i..|a| + i + |t|] == b[i..i + |t|];
    assert OccursAt(a + b + c, t, |a| + i);
    ContainsIff(a + b + c, t);
  }

  /** Every string occurs in itself. */
  lemma ContainsSelf(t: string)
    ensures Contains(t, t)
  {
    assert t[..|t|] == t;
  }

  // ---------------------------------------------------------------- trim

  /** The characters `trim` removes, restricted to ASCII: space, tab, line feed, vertical tab, form feed, carriage return. */
  predicate IsSpace(c: char) {
    c == ' ' || 9 <= c as int <= 13
  }

  predicate IsBlank(s: string) {
    forall i :: 0 <= i < |s| ==> IsSpace(s[i])
  }

  predicate IsTrimmed(s: string) {
    s == [] || (!IsSpace(s[0]) && !IsSpace(s[|s| - 1]))
  }

  /** The number of white-space characters `s` starts with. */
  function LeadingSpaces(s: string): (n: nat)
    ensures n <= |s| && IsBlank(s[..n])
    ensures n < |s| ==> !IsSpace(s[n])
  {
    if s != [] && IsSpace(s[0]) then
      var n := 1 + LeadingSpaces(s[1..]);
      assert s[..n] == [s[0]] + s[1..][..n - 1];
      n
    else
      0
  }

  /** The number of white-space characters `s` ends with. */
  function TrailingSpaces(s: string): (n: nat)
    ensures n <= |s| && forall k :: |s| - n <= k < |s| ==> IsSpace(s[k])
    ensures n < |s| ==> !IsSpace(s[|s| - n - 1])
  {
    SpacesBefore(s, |s|)
  }

  /** The number of white-space characters `s[..j]` ends with. */
  function SpacesBefore(s: string, j: nat): (n: nat)
    requires j <= |s|
    ensures n <= j && forall k :: j - n <= k < j ==> IsSpace(s[k])
    ensures n < j ==> !IsSpace(s[j - n - 1])
  {
    if j > 0 && IsSpace(s[j - 1]) then 1 + SpacesBefore(s, j - 1) else 0
  }

  /** `s.trim()`: drop leading and trailing white space. */
  function Trim(s: string): string {
    var r := s[LeadingSpaces(s)..];
    r[..|r| - TrailingSpaces(r)]
  }

  /** Trimming cuts only white space, and only from the two ends: the result is the slice `s[i..j]` of the input. */
  lemma TrimIsSlice(s: string) returns (i: nat, j: nat)
    ensures i <= j <= |s| && Trim(s) == s[i..j]
    ensures IsBlank(s[..i]) && IsBlank(s[j..])
  {
    i := LeadingSpaces(s);
    var a := s[i..];
    var k := |a| - TrailingSpaces(a);
    j := i + k;
    assert a[..k] == s[i..j];
    assert s[j..] == a[k..];
  }

  /** The trimmed string neither starts nor ends with white space, and it is empty exactly when the input is blank. */
  lemma TrimSpec(s: string)
    ensures IsTrimmed(Trim(s))
    ensures Trim(s) == [] <==> IsBlank(s)
  {
    var i, j := TrimIsSlice(s);
    var r := Trim(s);
    if r != [] {
      var a := s[i..];
      assert r[0] == s[i] && r[|r| - 1] == a[j - i - 1];
    }
    if r == [] {
      forall m | 0 <= m < |s|
        ensures IsSpace(s[m])
      {
        if m < i {
          assert s[..i][m] == s[m];
        } else {
          assert s[j..][m - j] == s[m];
        }
      }
    }
  }

  /** Trimming twice is the same as trimming once. */
  lemma TrimIdempotent(s: string)
    ensures Trim(Trim(s)) == Trim(s)
  {
    TrimSpec(s);
    TrimmedIsFixed(Trim(s));
  }

  /** A string that neither starts nor ends with white space is its own trim. */
  lemma TrimmedIsFixed(s: string)
    requires IsTrimmed(s)
    ensures Trim(s) == s
  {
    assert s[0..] == s;
    assert s[..|s|] == s;
  }

  // ---------------------------------------------------------------- numerals

  /** `\d` in a JavaScript regular expression: an ASCII digit. */
  predicate IsDigit(c: char) {
    '0' <= c <= '9'
  }

  predicate AllDigits(s: string) {
    forall i :: 0 <= i < |s| ==> IsDigit(s[i])
  }

  /** The length of the longest run of digits at the start of `s` (what a greedy `\d*` consumes). */
  function DigitRun(s: string): (n: nat)
    ensures n <= |s| && AllDigits(s[..n])
    ensures n < |s| ==> !IsDigit(s[n])
  {
    if s != [] && IsDigit(s[0]) then
      var n := 1 + DigitRun(s[1..]);
      assert s[..n] == [s[0]] + s[1..][..n - 1];
      n
    else
      0
  }

  /** A string the pattern `\d+(\.\d+)?` matches entirely. */
  predicate IsNumeral(t: string) {
    var n := DigitRun(t);
    0 < n && (n == |t| || (n < |t| - 1 && t[n] == '.' && AllDigits(t[n + 1..])))
  }

  /**
    The numeral the pattern matches at the very start of `r`: the maximal
    run of digits, followed by `.` and a maximal run of digits when a digit
    comes right after the point.
  */
  function LeadingNumeral(r: string): (t: string)
    requires r != [] && IsDigit(r[0])
    ensures IsNumeral(t) && |t| <= |r| && r[..|t|] == t
    // greedy: the match cannot be extended by a further digit ...
    ensures |t| < |r| ==> !IsDigit(r[|t|])
    // ... nor, for a whole number, by a fraction
    ensures DigitRun(t) == |t| && |t| + 1 < |r| ==> !(r[|t|] == '.' && IsDigit(r[|t| + 1]))
  {
    var n := DigitRun(r);
    if n + 1 < |r| && r[n] == '.' && IsDigit(r[n + 1]) then
      var m := DigitRun(r[n + 1..]);
      var t := r[..n + 1 + m];
      assert t[..n] == r[..n] && t[n] == '.' && t[n + 1..] == r[n + 1..][..m];
      assert DigitRun(t) == n by { DigitRunPrefix(t, r[..n]); }
      t
    else
      var t := r[..n];
      assert DigitRun(t) == n by { DigitRunPrefix(t, t); }
      t
  }

  /** The numeral the pattern matches when its leftmost match starts at `i`. */
  function NumeralAt(s: string, i: nat): (t: string)
    requires i < |s| && IsDigit(s[i])
    ensures IsNumeral(t)
    ensures i + |t| <= |s| && s[i..i + |t|] == t
    ensures i + |t| < |s| ==> !IsDigit(s[i + |t|])
    ensures DigitRun(t) == |t| && i + |t| + 1 < |s| ==> !(s[i + |t|] == '.' && IsDigit(s[i + |t| + 1]))
  {
    var r := s[i..];
    var t := LeadingNumeral(r);
    assert r[..|t|] == s[i..i + |t|];
    assert |t| < |r| ==> r[|t|] == s[i + |t|];
    assert |t| + 1 < |r| ==> r[|t| + 1] == s[i + |t| + 1];
    t
  }

  /** When `t` starts with the all-digit string `d` and is not continued by a digit, the leading run of `t` is `d`. */
  lemma {:induction false} DigitRunPrefix(t: string, d: string)
    requires d <= t && AllDigits(d)
    requires |d| < |t| ==> !IsDigit(t[|d|])
    ensures DigitRun(t) == |d|
  {
    if d != [] {
      assert t[1..][..|d| - 1] == d[1..];
      DigitRunPrefix(t[1..], d[1..]);
    }
  }

  /** The position of the first digit of `s`, if any: where the leftmost match of `\d+` starts. */
  function FirstDigit(s: string): (r: Option<nat>)
    ensures r.None? <==> forall k :: 0 <= k < |s| ==> !IsDigit(s[k])
    ensures r.Some? ==> r.value < |s| && IsDigit(s[r.value]) && forall k :: 0 <= k < r.value ==> !IsDigit(s[k])
  {
    if s == [] then None
    else if IsDigit(s[0]) then Some(0)
    else
      match FirstDigit(s[1..])
      case None => None
      case Some(k) => Some(k + 1)
  }

  /** `text.match(/(\d+(\.\d+)?)/)[1]`: the first numeral in `text`, or `None` when there is no digit at all. */
  function FirstNumber(text: string): Option<string> {
    match FirstDigit(text)
    case None => None
    case Some(i) => Some(NumeralAt(text, i))
  }

  /**
    The regular-expression search finds the leftmost, longest numeral: it is
    absent exactly when the text has no digit; otherwise it is a numeral that
    occurs in the text, no digit precedes it, and it cannot be extended.
  */
  lemma FirstNumberSpec(text: string)
    ensures FirstNumber(text).None? <==> forall k :: 0 <= k < |text| ==> !IsDigit(text[k])
    ensures FirstNumber(text).Some? ==>
      var t := FirstNumber(text).value;
      && Contains(text, t)
      && IsNumeral(t)
      && exists i ::
           && OccursAt(text, t, i)
           && (forall k :: 0 <= k < i ==> !IsDigit(text[k]))
           && (i + |t| < |text| ==> !IsDigit(text[i + |t|]))
           && (DigitRun(t) == |t| && i + |t| + 1 < |text| ==> !(text[i + |t|] == '.' && IsDigit(text[i + |t| + 1])))
  {
    if FirstNumber(text).Some? {
      var i := FirstDigit(text).value;
      var t := NumeralAt(text, i);
      assert OccursAt(text, t, i);
      ContainsIff(text, t);
    }
  }

  /** Text without digits in front of a line does not change the number found in it. */
  lemma FirstNumberAfter(a: string, b: string)
    requires forall c :: IsDigit(c) ==> c !in a
    ensures FirstNumber(a + b) == FirstNumber(b)
  {
    var s := a + b;
    forall k | 0 <= k < |a| ensures !IsDigit(s[k]) {
      assert s[k] == a[k] && a[k] in a;
    }
    match FirstDigit(b)
    case None =>
      forall k | |a| <= k < |s| ensures !IsDigit(s[k]) {
        assert s[k] == b[k - |a|];
      }
    case Some(i) =>
      assert s[|a| + i] == b[i];
      forall k | |a| <= k < |a| + i ensures !IsDigit(s[k]) {
        assert s[k] == b[k - |a|];
      }
      assert FirstDigit(s) == Some(|a| + i);
      NumeralAtShift(a, b, i);
  }

  /** Where a numeral starts in `b`, it reads the same once `a` is put in front. */
  lemma NumeralAtShift(a: string, b: string, i: nat)
    requires i < |b| && IsDigit(b[i])
    ensures NumeralAt(a + b, |a| + i) == NumeralAt(b, i)
  {
    assert (a + b)[|a| + i..] == b[i..];
  }

  // ---------------------------------------------------------------- numeric value

  function Pow10(n: nat): (p: nat)
    ensures p >= 1
  {
    if n == 0 then 1 else 10 * Pow10(n - 1)
  }

  function DigitValue(c: char): nat
    requires IsDigit(c)
  {
    c as int - '0' as int
  }

  /** The value of a string of decimal digits, read most significant first. */
  function DigitsValue(d: string): nat
    requires AllDigits(d)
  {
    if d == [] then 0 else 10 * DigitsValue(d[..|d| - 1]) + DigitValue(d[|d| - 1])
  }

  /** A string of k digits denotes a number below 10^k. */
  lemma {:induction false} DigitsValueBound(d: string)
    requires AllDigits(d)
    ensures DigitsValue(d) < Pow10(|d|)
  {
    if d != [] {
      DigitsValueBound(d[..|d| - 1]);
    }
  }

  /** `parseFloat` of a numeral, as an exact decimal: whole part plus fraction digits over 10^(number of fraction digits). */
  function ParseDecimal(t: string): (r: real)
    requires IsNumeral(t)
    ensures r >= 0.0
  {
    var n := DigitRun(t);
    if n == |t| then DigitsValue(t) as real
    else DigitsValue(t[..n]) as real + DigitsValue(t[n + 1..]) as real / Pow10(|t| - n - 1) as real
  }

  /** The value of a numeral lies between its whole part and the next integer; a whole number is exact. */
  lemma ParseDecimalBounds(t: string)
    requires IsNumeral(t)
    ensures var n := DigitRun(t);
      DigitsValue(t[..n]) as real <= ParseDecimal(t) < DigitsValue(t[..n]) as real + 1.0
    ensures DigitRun(t) == |t| ==> ParseDecimal(t) == DigitsValue(t) as real
  {
    var n := DigitRun(t);
    if n == |t| {
      assert t[..n] == t;
    } else {
      var f := t[n + 1..];
      DigitsValueBound(f);
      FractionBelowOne(DigitsValue(f), Pow10(|f|));
    }
  }

  /** A natural number below a positive bound, divided by it, is a fraction in [0, 1). */
  lemma FractionBelowOne(a: nat, p: nat)
    requires a < p
    ensures 0.0 <= a as real / p as real < 1.0
  {
    var q := a as real / p as real;
    assert q * p as real == a as real;
  }
}
