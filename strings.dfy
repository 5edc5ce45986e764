/** The parts of Python's str behaviour the core relies on: whitespace,
    strip, substring search, replace-by-nothing, and decimal formatting. */
module Strings {

  import opened Common

  /** Python's whitespace: the characters str.isspace() accepts, which are the
      ones str.strip() removes and the regular-expression class \s matches. */
  predicate IsSpace(c: char) {
    var n := c as int;
    (0x09 <= n <= 0x0D) || (0x1C <= n <= 0x20) || n == 0x85 || n == 0xA0 || n == 0x1680
    || (0x2000 <= n <= 0x200A) || n == 0x2028 || n == 0x2029 || n == 0x202F
    || n == 0x205F || n == 0x3000
  }

  predicate AllSpace(s: string) {
    forall i :: 0 <= i < |s| ==> IsSpace(s[i])
  }

  /** str.lstrip(): the suffix left after dropping leading whitespace. */
  function LStrip(s: string): (r: string)
    ensures |r| <= |s| && r == s[|s| - |r|..]
    ensures AllSpace(s[..|s| - |r|])
    ensures r == [] || !IsSpace(r[0])
  {
    if |s| > 0 && IsSpace(s[0]) then
      var r := LStrip(s[1..]);
      assert s[1..][|s| - 1 - |r|..] == s[|s| - |r|..];
      assert forall k | 1 <= k < |s| - |r| :: s[k] == s[1..][..|s| - 1 - |r|][k - 1];
      r
    else s
  }

  /** str.rstrip(): the prefix left after dropping trailing whitespace. */
  function RStrip(s: string): (r: string)
    ensures |r| <= |s| && r == s[..|r|]
    ensures AllSpace(s[|r|..])
    ensures r == [] || !IsSpace(r[|r| - 1])
  {
    if |s| > 0 && IsSpace(s[|s| - 1]) then
      var r := RStrip(s[..|s| - 1]);
      assert s[..|s| - 1][..|r|] == s[..|r|];
      assert forall k | |r| <= k < |s| - 1 :: s[k] == s[..|s| - 1][|r|..][k - |r|];
      r
    else s
  }

  /** str.strip(). */
  function Strip(s: string): (r: string)
    ensures |r| <= |s|
    ensures r == [] || (!IsSpace(r[0]) && !IsSpace(r[|r| - 1]))
  {
    RStrip(LStrip(s))
  }

  /** Strip keeps one contiguous slice of its input and drops only whitespace around it. */
  lemma StripSlice(s: string) returns (i: nat)
    ensures i + |Strip(s)| <= |s| && Strip(s) == s[i..i + |Strip(s)|]
    ensures AllSpace(s[..i]) && AllSpace(s[i + |Strip(s)|..])
  {
    var l := LStrip(s);
    var r := RStrip(l);
    i := |s| - |l|;
    assert l[|r|..] == s[i + |r|..];
  }

  /** A string strips to nothing exactly when it is all whitespace (Python's `not s.strip()`). */
  lemma StripEmptyIffAllSpace(s: string)
    ensures Strip(s) == [] <==> AllSpace(s)
  {
    var i := StripSlice(s);
    if Strip(s) == [] {
      assert s == s[..i] + s[i..];
    }
  }

  /** Stripping a string that has no whitespace at either end changes nothing. */
  lemma StripTrimmed(s: string)
    requires s == [] || (!IsSpace(s[0]) && !IsSpace(s[|s| - 1]))
    ensures Strip(s) == s
  {
  }

  /** Stripping twice is stripping once. */
  lemma {:induction false} StripIdempotent(s: string)
    ensures Strip(Strip(s)) == Strip(s)
  {
    StripTrimmed(Strip(s));
  }

  // ---------------------------------------------------------------------
  // Substrings

  predicate OccursAt(s: string, pat: string, i: int) {
    0 <= i && i + |pat| <= |s| && s[i..i + |pat|] == pat
  }

  /** Python's `pat in s`. */
  predicate Contains(s: string, pat: string) {
    exists i | 0 <= i <= |s| :: OccursAt(s, pat, i)
  }

  /** A substring of a slice is a substring of the whole. */
  lemma ContainsSlice(s: string, lo: nat, hi: nat, pat: string)
    requires lo <= hi <= |s|
    requires Contains(s[lo..hi], pat)
    ensures Contains(s, pat)
  {
    var j :| 0 <= j <= hi - lo && OccursAt(s[lo..hi], pat, j);
    forall k | 0 <= k < |pat| ensures s[lo + j + k] == pat[k] {
      assert s[lo..hi][j..j + |pat|][k] == pat[k];
    }
    assert s[lo + j..lo + j + |pat|] == pat;
    assert OccursAt(s, pat, lo + j);
  }

  /** Python's s.replace(pat, ""): scans left to right and drops every
      non-overlapping occurrence of pat. */
  function RemoveAll(s: string, pat: string): (r: string)
    requires |pat| > 0
    ensures |r| <= |s|
    decreases |s|
  {
    if |s| < |pat| then s
    else if s[..|pat|] == pat then RemoveAll(s[|pat|..], pat)
    else [s[0]] + RemoveAll(s[1..], pat)
  }

  /** Deleting occurrences only drops characters. */
  lemma {:induction false} RemoveAllKeepsMultiset(s: string, pat: string)
    requires |pat| > 0
    ensures multiset(RemoveAll(s, pat)) <= multiset(s)
    decreases |s|
  {
    if |s| >= |pat| {
      if s[..|pat|] == pat {
        RemoveAllKeepsMultiset(s[|pat|..], pat);
        assert s == s[..|pat|] + s[|pat|..];
      } else {
        RemoveAllKeepsMultiset(s[1..], pat);
        assert s == [s[0]] + s[1..];
      }
    }
  }

  /** Deleting a pattern that occurs makes the text strictly shorter. */
  lemma {:induction false} RemoveAllShrinks(s: string, pat: string)
    requires |pat| > 0 && Contains(s, pat)
    ensures |RemoveAll(s, pat)| < |s|
    decreases |s|
  {
    if s[..|pat|] != pat {
      ContainsPastFirst(s, pat);
      RemoveAllShrinks(s[1..], pat);
    }
  }

  /** Deleting a single character leaves none of it behind. */
  lemma {:induction false} RemoveAllDropsChar(s: string, pat: string)
    requires |pat| == 1
    ensures pat[0] !in RemoveAll(s, pat)
    decreases |s|
  {
    if |s| >= 1 {
      if s[..1] == pat {
        RemoveAllDropsChar(s[1..], pat);
      } else {
        assert s[..1] == [s[0]];
        RemoveAllDropsChar(s[1..], pat);
      }
    }
  }

  /** An occurrence that does not start at index 0 is an occurrence in s[1..]. */
  lemma ContainsPastFirst(s: string, pat: string)
    requires |s| > 0 && !OccursAt(s, pat, 0)
    ensures Contains(s, pat) ==> Contains(s[1..], pat)
  {
    if Contains(s, pat) {
      var i :| 0 <= i <= |s| && OccursAt(s, pat, i);
      assert s[1..][i - 1..i - 1 + |pat|] == s[i..i + |pat|];
      assert OccursAt(s[1..], pat, i - 1);
    }
  }

  /** The index of the last occurrence of pat that starts below k, if any. */
  function LastOccurrence(s: string, pat: string, k: int): (r: Option<nat>)
    ensures r.Some? ==> r.value < k && OccursAt(s, pat, r.value)
    ensures r.Some? ==> forall j :: r.value < j < k ==> !OccursAt(s, pat, j)
    ensures r.None? ==> forall j :: 0 <= j < k ==> !OccursAt(s, pat, j)
    decreases k
  {
    if k <= 0 then None
    else if OccursAt(s, pat, k - 1) then Some(k - 1)
    else LastOccurrence(s, pat, k - 1)
  }

  /** s.rstrip(c) for a single character c. */
  function RStripChar(s: string, c: char): (r: string)
    ensures |r| <= |s| && r == s[..|r|]
    ensures forall k :: |r| <= k < |s| ==> s[k] == c
    ensures r == [] || r[|r| - 1] != c
  {
    if |s| > 0 && s[|s| - 1] == c then RStripChar(s[..|s| - 1], c) else s
  }

  // ---------------------------------------------------------------------
  // Decimal numbers

  predicate IsDigit(c: char) {
    '0' <= c <= '9'
  }

  predicate AllDigits(s: string) {
    forall i :: 0 <= i < |s| ==> IsDigit(s[i])
  }

  function DigitChar(d: nat): (c: char)
    requires d < 10
    ensures IsDigit(c) && c as int - '0' as int == d
  {
    (d + '0' as int) as char
  }

  /** Python's str(n) for a non-negative integer. */
  function NatToString(n: nat): (s: string)
    ensures |s| > 0 && AllDigits(s)
    decreases n, 1
  {
    if n < 10 then [DigitChar(n)] else LeadingDigitsThenLast(n)
  }

  /** The digits of n / 10 followed by the last digit of n. */
  function LeadingDigitsThenLast(n: nat): (s: string)
    requires n >= 10
    ensures |s| > 1 && AllDigits(s) && s[|s| - 1] == DigitChar(n % 10)
    decreases n, 0
  {
    NatToString(n / 10) + [DigitChar(n % 10)]
  }

  /** Python's str(n) for any integer: a minus sign before the digits of |n|. */
  function IntToString(n: int): (s: string)
    ensures |s| > 0
  {
    if n < 0 then "-" + NatToString(-n) else NatToString(n)
  }

  /** Python's int() of a string of decimal digits (leading zeros allowed). */
  function DigitsValue(s: string): (n: nat)
    requires AllDigits(s)
  {
    if s == [] then 0 else DigitsValue(s[..|s| - 1]) * 10 + (s[|s| - 1] as int - '0' as int)
  }

  /** Reading back the decimal text of n gives n. */
  lemma {:induction false} DigitsValueOfNatToString(n: nat)
    ensures DigitsValue(NatToString(n)) == n
  {
    if n >= 10 {
      var s := LeadingDigitsThenLast(n);
      assert s[..|s| - 1] == NatToString(n / 10);
      DigitsValueOfNatToString(n / 10);
    }
  }
}
