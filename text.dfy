/** The string operations the modelled code relies on: `str.strip`,
    `str.isdigit`, `str.lower` and SQLite's case-insensitive `LIKE '%v%'`,
    all over ASCII. */
module Text {

  /** Python's `str.isspace` on ASCII: space, tab through carriage return,
      and the four separators 0x1C-0x1F. */
  predicate IsSpace(c: char) {
    var n := c as int;
    n == 32 || (9 <= n <= 13) || (28 <= n <= 31)
  }

  /** True when `s.strip()` is empty, i.e. `not s.strip()` in Python. */
  predicate IsBlank(s: string) {
    forall i :: 0 <= i < |s| ==> IsSpace(s[i])
  }

  /** Number of leading whitespace characters. */
  function LeadingBlank(s: string): (k: nat)
    ensures k <= |s| && IsBlank(s[..k])
    ensures k < |s| ==> !IsSpace(s[k])
  {
    if s == [] || !IsSpace(s[0]) then 0 else 1 + LeadingBlank(s[1..])
  }

  /** Number of trailing whitespace characters. */
  function TrailingBlank(s: string): (k: nat)
    ensures k <= |s| && IsBlank(s[|s| - k..])
    ensures k < |s| ==> !IsSpace(s[|s| - k - 1])
  {
    if s == [] || !IsSpace(s[|s| - 1]) then 0 else 1 + TrailingBlank(s[..|s| - 1])
  }

  /** `needle` sits in `hay` starting at offset `i`. */
  predicate OccursAt(hay: string, needle: string, i: int) {
    0 <= i && i + |needle| <= |hay| && hay[i..i + |needle|] == needle
  }

  /** Every character of `s` from `lo` up to (not including) `hi` is whitespace. */
  predicate BlankBetween(s: string, lo: int, hi: int) {
    forall j :: lo <= j < hi && 0 <= j < |s| ==> IsSpace(s[j])
  }

  /** `r` is what is left of `s` once its leading and trailing whitespace
      are cut off: `s` is blank space, then `r`, then blank space, and `r`
      neither starts nor ends with whitespace. */
  ghost predicate IsStripOf(s: string, r: string) {
    && (r != "" ==> !IsSpace(r[0]) && !IsSpace(r[|r| - 1]))
    && exists i :: OccursAt(s, r, i) && BlankBetween(s, 0, i) && BlankBetween(s, i + |r|, |s|)
  }

  /** Python's `str.strip()`: `s` without its leading and trailing whitespace. */
  function Strip(s: string): (r: string)
    ensures r == "" <==> IsBlank(s)
    ensures IsStripOf(s, r)
  {
    var k := LeadingBlank(s);
    assert BlankBetween(s, 0, k) by {
      forall j | 0 <= j < k ensures IsSpace(s[j]) { assert s[..k][j] == s[j]; }
    }
    if k == |s| then
      assert OccursAt(s, "", 0) && BlankBetween(s, 0, 0);
      ""
    else
      var t := s[k..];
      var e := TrailingBlank(t);
      assert e < |t| by { assert !IsSpace(t[0]); }
      assert s[k] == t[0];
      assert !IsBlank(s) by { assert !IsSpace(s[k]); }
      var r := t[..|t| - e];
      assert r == s[k..k + |r|];
      assert BlankBetween(s, k + |r|, |s|) by {
        forall j | k + |r| <= j < |s| ensures IsSpace(s[j]) { assert t[|t| - e..][j - k - |r|] == s[j]; }
      }
      assert OccursAt(s, r, k);
      r
  }

  /** A stripped text is empty exactly when the original is blank. */
  lemma StripOfEmpty(s: string, r: string)
    requires IsStripOf(s, r)
    ensures r == "" <==> IsBlank(s)
  {
    var i :| OccursAt(s, r, i) && BlankBetween(s, 0, i) && BlankBetween(s, i + |r|, |s|);
    if r != "" {
      assert s[i..i + |r|][0] == s[i];
    }
  }

  /** Whitespace up to `i` followed by a non-space character is exactly the
      leading whitespace. */
  lemma {:induction false} LeadingBlankAt(s: string, i: int)
    requires 0 <= i < |s| && BlankBetween(s, 0, i) && !IsSpace(s[i])
    ensures LeadingBlank(s) == i
    decreases i
  {
    if i > 0 {
      assert IsSpace(s[0]);
      assert forall j :: 0 <= j < |s| - 1 ==> s[1..][j] == s[j + 1];
      LeadingBlankAt(s[1..], i - 1);
    }
  }

  /** A non-space character at `j - 1` followed by whitespace only is
      exactly the trailing whitespace. */
  lemma {:induction false} TrailingBlankAt(s: string, j: int)
    requires 0 < j <= |s| && BlankBetween(s, j, |s|) && !IsSpace(s[j - 1])
    ensures TrailingBlank(s) == |s| - j
    decreases |s| - j
  {
    if j < |s| {
      assert IsSpace(s[|s| - 1]);
      var init := s[..|s| - 1];
      assert forall x :: 0 <= x < |init| ==> init[x] == s[x];
      TrailingBlankAt(init, j);
    }
  }

  /** A non-empty stripped text is what lies between the leading and the
      trailing whitespace. */
  lemma StripOfSlice(s: string, r: string)
    requires IsStripOf(s, r) && r != ""
    ensures LeadingBlank(s) + TrailingBlank(s) <= |s|
    ensures r == s[LeadingBlank(s)..|s| - TrailingBlank(s)]
  {
    var i :| OccursAt(s, r, i) && BlankBetween(s, 0, i) && BlankBetween(s, i + |r|, |s|);
    var w := s[i..i + |r|];
    assert w[0] == s[i] && w[|r| - 1] == s[i + |r| - 1];
    LeadingBlankAt(s, i);
    TrailingBlankAt(s, i + |r|);
  }

  /** The whitespace around a text determines it: at most one string is
      what stripping `s` leaves, so `Strip` is pinned by `IsStripOf`. */
  lemma StripOfUnique(s: string, r1: string, r2: string)
    requires IsStripOf(s, r1) && IsStripOf(s, r2)
    ensures r1 == r2
  {
    StripOfEmpty(s, r1);
    StripOfEmpty(s, r2);
    if r1 != "" && r2 != "" {
      StripOfSlice(s, r1);
      StripOfSlice(s, r2);
    }
  }

  /** A string with no whitespace at either end is its own `strip()`. */
  lemma StripTrimmed(s: string)
    requires s != [] ==> !IsSpace(s[0]) && !IsSpace(s[|s| - 1])
    ensures Strip(s) == s
  {
    if s != [] {
      assert LeadingBlank(s) == 0;
      assert TrailingBlank(s) == 0;
    }
  }

  /** An ASCII decimal digit. */
  predicate IsDigit(c: char) {
    '0' <= c <= '9'
  }

  /** Python's `str.isdigit()` over ASCII: non-empty and digits only. */
  predicate IsDigits(s: string) {
    |s| > 0 && forall i :: 0 <= i < |s| ==> IsDigit(s[i])
  }

  /** A digit string is not blank and is its own `strip()`. */
  lemma DigitsAreTrimmed(s: string)
    requires IsDigits(s)
    ensures !IsBlank(s) && Strip(s) == s
  {
    assert IsDigit(s[0]) && !IsSpace(s[0]);
    assert IsDigit(s[|s| - 1]);
    StripTrimmed(s);
  }

  /** `str.lower()` on one ASCII character. */
  function LowerChar(c: char): (r: char)
    ensures 'A' <= c <= 'Z' ==> 'a' <= r <= 'z' && r as int - c as int == 32
    ensures !('A' <= c <= 'Z') ==> r == c
  {
    if 'A' <= c <= 'Z' then (c as int + 32) as char else c
  }

  /** `str.lower()` over ASCII letters; every other character is kept. */
  function Lower(s: string): (r: string)
    ensures |r| == |s|
    ensures forall i :: 0 <= i < |s| ==> r[i] == LowerChar(s[i])
  {
    seq(|s|, i requires 0 <= i < |s| => LowerChar(s[i]))
  }

  /** `needle` occurs in `hay` as a contiguous run, searched left to right. */
  function Contains(hay: string, needle: string): bool
    decreases |hay|
  {
    |needle| <= |hay| && (hay[..|needle|] == needle || Contains(hay[1..], needle))
  }

  /** `Contains` holds exactly when some offset of `hay` starts a copy of `needle`. */
  lemma {:induction false} ContainsAt(hay: string, needle: string)
    ensures Contains(hay, needle) <==> exists i :: OccursAt(hay, needle, i)
    decreases |hay|
  {
    if |needle| <= |hay| {
      if hay[..|needle|] == needle {
        assert OccursAt(hay, needle, 0);
      } else {
        ContainsAt(hay[1..], needle);
        if exists i :: OccursAt(hay, needle, i) {
          var i :| OccursAt(hay, needle, i);
          assert i != 0;
          assert hay[1..][i - 1..i - 1 + |needle|] == needle;
          assert OccursAt(hay[1..], needle, i - 1);
        }
        if Contains(hay[1..], needle) {
          var j :| OccursAt(hay[1..], needle, j);
          assert hay[j + 1..j + 1 + |needle|] == needle;
          assert OccursAt(hay, needle, j + 1);
        }
      }
    }
  }

  /** SQLite `field LIKE '%pattern%'` with the default ASCII case folding
      (pattern characters `%` and `_` taken literally). */
  predicate LikeSubstring(field: string, pattern: string) {
    Contains(Lower(field), Lower(pattern))
  }

  /** An empty pattern matches every field; a field matches itself and
      its case variants. */
  lemma LikeSubstringReflexive(field: string, other: string)
    requires Lower(other) == Lower(field)
    ensures LikeSubstring(field, "") && LikeSubstring(field, other)
  {
    ContainsAt(Lower(field), "");
    assert OccursAt(Lower(field), Lower(""), 0);
    ContainsAt(Lower(field), Lower(other));
    assert OccursAt(Lower(field), Lower(other), 0);
  }
}
