/**
 The two string operations the add and edit paths apply to user input:
 `String.prototype.trim` and `String.prototype.toLowerCase`.
 */
module Text {

  /** White space and line terminators as `trim` strips them: TAB, LF, VT, FF, CR,
      every Unicode "space separator", the byte-order mark, LINE SEPARATOR and
      PARAGRAPH SEPARATOR. */
  predicate IsSpace(c: char) {
    || c == '\t' || c == '\n' || c == '\U{000B}' || c == '\U{000C}' || c == '\r'
    || c == ' ' || c == '\U{00A0}' || c == '\U{1680}'
    || ('\U{2000}' <= c <= '\U{200A}')
    || c == '\U{2028}' || c == '\U{2029}' || c == '\U{202F}' || c == '\U{205F}'
    || c == '\U{3000}' || c == '\U{FEFF}'
  }

  /** Every character of `s` is white space (the empty string included). */
  predicate IsBlank(s: string) {
    forall i :: 0 <= i < |s| ==> IsSpace(s[i])
  }

  /** Every character of `s` from index `lo` up to (not including) `hi` is white space. */
  predicate BlankBetween(s: string, lo: nat, hi: nat)
    requires lo <= hi <= |s|
  {
    forall k :: lo <= k < hi ==> IsSpace(s[k])
  }

  /** Where the text of `s` starts: the first index at or after `k` that is not white space
      (or `|s|`), given that everything before `k` is white space. */
  function SkipLeading(s: string, k: nat): (n: nat)
    requires k <= |s| && BlankBetween(s, 0, k)
    ensures k <= n <= |s| && BlankBetween(s, 0, n)
    ensures n < |s| ==> !IsSpace(s[n])
    decreases |s| - k
  {
    if k < |s| && IsSpace(s[k]) then SkipLeading(s, k + 1) else k
  }

  /** Where the text of `s` ends: the last index at or before `m`, and not before `lo`,
      that follows a character that is not white space (or `lo`), given that everything
      from `m` on is white space. */
  function SkipTrailing(s: string, lo: nat, m: nat): (e: nat)
    requires lo <= m <= |s| && BlankBetween(s, m, |s|)
    ensures lo <= e <= m && BlankBetween(s, e, |s|)
    ensures e > lo ==> !IsSpace(s[e - 1])
    decreases m - lo
  {
    if m > lo && IsSpace(s[m - 1]) then SkipTrailing(s, lo, m - 1) else m
  }

  /** `s.trim()`: `s` with the white space at both ends cut off. The result is empty
      exactly for a blank input; otherwise it starts and ends with a character that is
      not white space, and it sits in `s` between a blank prefix and a blank suffix. */
  function Trim(s: string): (r: string)
    ensures r == [] <==> IsBlank(s)
    ensures r == [] || (!IsSpace(r[0]) && !IsSpace(r[|r| - 1]))
    ensures exists i :: (0 <= i <= |s| - |r| && r == s[i..i + |r|]
      && BlankBetween(s, 0, i) && BlankBetween(s, i + |r|, |s|))
  {
    var i := SkipLeading(s, 0);
    var j := SkipTrailing(s, i, |s|);
    assert IsBlank(s) ==> j == i by {
      if j > i {
        assert !IsSpace(s[j - 1]);
      }
    }
    assert s[i..j] == s[i..i + (j - i)];
    s[i..j]
  }

  /** Trimming an already trimmed string changes nothing. */
  lemma TrimIdempotent(s: string)
    ensures Trim(Trim(s)) == Trim(s)
  {
    var r := Trim(s);
    if r != [] {
      assert SkipLeading(r, 0) == 0;
      assert SkipTrailing(r, 0, |r|) == |r|;
      assert r[0..|r|] == r;
    }
  }

  /** Lower-casing neither creates nor removes white space. */
  lemma LowerCharSpace(c: char)
    ensures IsSpace(LowerChar(c)) == IsSpace(c)
  {
  }

  /** The lower-case form of an ASCII capital letter; every other character is kept. */
  function LowerChar(c: char): char {
    if 'A' <= c <= 'Z' then (c as int + 32) as char else c
  }

  /** `s.toLowerCase()`, on the ASCII letters: no capital is left, each capital
      becomes the matching small letter, and every other character is kept. */
  function Lower(s: string): (r: string)
    ensures |r| == |s|
    ensures forall i :: 0 <= i < |r| ==> !('A' <= r[i] <= 'Z')
    ensures forall i :: 0 <= i < |s| && 'A' <= s[i] <= 'Z' ==>
      'a' <= r[i] <= 'z' && r[i] as int - 'a' as int == s[i] as int - 'A' as int
    ensures forall i :: 0 <= i < |s| && !('A' <= s[i] <= 'Z') ==> r[i] == s[i]
  {
    seq(|s|, i requires 0 <= i < |s| => LowerChar(s[i]))
  }

  /** Lower-casing does not move where the text of a string starts. */
  lemma {:induction false} SkipLeadingLower(s: string, k: nat)
    requires k <= |s| && BlankBetween(s, 0, k)
    ensures BlankBetween(Lower(s), 0, k) && SkipLeading(Lower(s), k) == SkipLeading(s, k)
    decreases |s| - k
  {
    if k < |s| {
      LowerCharSpace(s[k]);
      if IsSpace(s[k]) {
        SkipLeadingLower(s, k + 1);
      }
    }
  }

  /** Lower-casing does not move where the text of a string ends. */
  lemma {:induction false} SkipTrailingLower(s: string, lo: nat, m: nat)
    requires lo <= m <= |s| && BlankBetween(s, m, |s|)
    ensures BlankBetween(Lower(s), m, |s|) && SkipTrailing(Lower(s), lo, m) == SkipTrailing(s, lo, m)
    decreases m - lo
  {
    if m > lo {
      LowerCharSpace(s[m - 1]);
      if IsSpace(s[m - 1]) {
        SkipTrailingLower(s, lo, m - 1);
      }
    }
  }

  /** Trimming and lower-casing commute. */
  lemma TrimLower(s: string)
    ensures Trim(Lower(s)) == Lower(Trim(s))
  {
    var i := SkipLeading(s, 0);
    var j := SkipTrailing(s, i, |s|);
    SkipLeadingLower(s, 0);
    SkipTrailingLower(s, i, |s|);
    assert Trim(Lower(s)) == Lower(s)[i..j];
    assert Trim(s) == s[i..j];
    LowerSlice(s, i, j);
  }

  /** Lower-casing a slice is slicing the lower-cased string. */
  lemma LowerSlice(s: string, i: nat, j: nat)
    requires i <= j <= |s|
    ensures Lower(s)[i..j] == Lower(s[i..j])
  {
    forall k | 0 <= k < j - i ensures Lower(s)[i..j][k] == Lower(s[i..j])[k] {
      assert s[i..j][k] == s[i + k];
    }
  }

  /** Lower-casing is idempotent. */
  lemma LowerLower(s: string)
    ensures Lower(Lower(s)) == Lower(s)
  {
  }

}
