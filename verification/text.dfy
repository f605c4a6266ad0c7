/**
 * The two string normalisations the command matcher applies: Go's
 * `strings.ToLower` (restricted to ASCII letters) and `strings.TrimSpace`
 * (with Go's full `unicode.IsSpace` table).
 */
module Text {

  /** Go's `unicode.IsSpace`: the Unicode White_Space property. */
  function IsSpace(c: char): (b: bool)
    ensures b ==> !('a' <= c <= 'z') && !('A' <= c <= 'Z') && !('0' <= c <= '9')
  {
    || ('\t' <= c <= '\r')
    || c == ' '
    || c == '\U{0085}'
    || c == '\U{00A0}'
    || c == '\U{1680}'
    || ('\U{2000}' <= c <= '\U{200A}')
    || c == '\U{2028}'
    || c == '\U{2029}'
    || c == '\U{202F}'
    || c == '\U{205F}'
    || c == '\U{3000}'
  }

  ghost predicate AllSpace(s: string) {
    forall k :: 0 <= k < |s| ==> IsSpace(s[k])
  }

  predicate IsUpperAscii(c: char) {
    'A' <= c <= 'Z'
  }

  /** Lower-case one character: ASCII capitals move to their small letters. */
  function LowerChar(c: char): char {
    if IsUpperAscii(c) then (c as int + ('a' as int - 'A' as int)) as char else c
  }

  /** `strings.ToLower`, character by character. */
  function ToLower(s: string): (r: string)
    ensures |r| == |s|
  {
    seq(|s|, i requires 0 <= i < |s| => LowerChar(s[i]))
  }

  /** The first index at or after `i` that does not hold white space (or `|s|`). */
  function SkipLeading(s: string, i: nat): (n: nat)
    requires i <= |s|
    ensures i <= n <= |s|
    decreases |s| - i
  {
    if i < |s| && IsSpace(s[i]) then SkipLeading(s, i + 1) else i
  }

  /** The least index `n >= lo` such that `s[n..j]` is all white space. */
  function SkipTrailing(s: string, lo: nat, j: nat): (n: nat)
    requires lo <= j <= |s|
    ensures lo <= n <= j
    decreases j
  {
    if j > lo && IsSpace(s[j - 1]) then SkipTrailing(s, lo, j - 1) else j
  }

  /** `strings.TrimSpace`: `s` without its leading and trailing white space. */
  function TrimSpace(s: string): (r: string)
    ensures |r| <= |s|
    ensures |r| > 0 ==> !IsSpace(r[0]) && !IsSpace(r[|r| - 1])
  {
    var start := SkipLeading(s, 0);
    SkipLeadingSpec(s, 0);
    SkipTrailingSpec(s, start, |s|);
    s[start..SkipTrailing(s, start, |s|)]
  }

  /**
   * Lower-casing leaves no ASCII capital behind and changes nothing but
   * ASCII capitals, each into the small letter of the same name.
   */
  lemma ToLowerSpec(s: string)
    ensures forall i :: 0 <= i < |s| ==> !IsUpperAscii(ToLower(s)[i])
    ensures forall i :: 0 <= i < |s| && !IsUpperAscii(s[i]) ==> ToLower(s)[i] == s[i]
    ensures forall i :: 0 <= i < |s| && IsUpperAscii(s[i]) ==>
      'a' <= ToLower(s)[i] <= 'z' && ToLower(s)[i] as int - 'a' as int == s[i] as int - 'A' as int
  {
  }

  /** Lower-casing twice is lower-casing once. */
  lemma ToLowerIdempotent(s: string)
    ensures ToLower(ToLower(s)) == ToLower(s)
  {
  }

  lemma ToLowerSlice(s: string, i: int, j: int)
    requires 0 <= i <= j <= |s|
    ensures ToLower(s)[i..j] == ToLower(s[i..j])
  {
  }

  lemma ToLowerConcat(a: string, b: string)
    ensures ToLower(a + b) == ToLower(a) + ToLower(b)
  {
  }

  lemma LowerCharKeepsSpace(c: char)
    ensures IsSpace(LowerChar(c)) == IsSpace(c)
  {
  }

  /** White space is left alone by lower-casing. */
  lemma ToLowerOfSpace(a: string)
    requires AllSpace(a)
    ensures ToLower(a) == a
  {
  }

  /** `SkipLeading` stops at the first non-space at or after `i`. */
  lemma {:induction false} SkipLeadingSpec(s: string, i: nat)
    requires i <= |s|
    ensures forall k :: i <= k < SkipLeading(s, i) ==> IsSpace(s[k])
    ensures SkipLeading(s, i) < |s| ==> !IsSpace(s[SkipLeading(s, i)])
    decreases |s| - i
  {
    if i < |s| && IsSpace(s[i]) {
      SkipLeadingSpec(s, i + 1);
    }
  }

  /** `SkipTrailing` stops just after the last non-space before `j`, but not below `lo`. */
  lemma {:induction false} SkipTrailingSpec(s: string, lo: nat, j: nat)
    requires lo <= j <= |s|
    ensures forall k :: SkipTrailing(s, lo, j) <= k < j ==> IsSpace(s[k])
    ensures SkipTrailing(s, lo, j) > lo ==> !IsSpace(s[SkipTrailing(s, lo, j) - 1])
    decreases j
  {
    if j > lo && IsSpace(s[j - 1]) {
      SkipTrailingSpec(s, lo, j - 1);
    }
  }

  /**
   * `TrimSpace(s)` is the part of `s` left between a white-space prefix
   * and a white-space suffix, and it neither starts nor ends with white
   * space.
   */
  lemma TrimSpaceSpec(s: string) returns (i: nat)
    ensures i + |TrimSpace(s)| <= |s|
    ensures TrimSpace(s) == s[i..i + |TrimSpace(s)|]
    ensures AllSpace(s[..i]) && AllSpace(s[i + |TrimSpace(s)|..])
    ensures |TrimSpace(s)| > 0 ==> !IsSpace(TrimSpace(s)[0]) && !IsSpace(TrimSpace(s)[|TrimSpace(s)| - 1])
  {
    i := SkipLeading(s, 0);
    var stop := SkipTrailing(s, i, |s|);
    SkipLeadingSpec(s, 0);
    SkipTrailingSpec(s, i, |s|);
    assert TrimSpace(s) == s[i..stop];
  }

  lemma {:induction false} SkipLeadingOfLower(s: string, i: nat)
    requires i <= |s|
    ensures SkipLeading(ToLower(s), i) == SkipLeading(s, i)
    decreases |s| - i
  {
    if i < |s| {
      LowerCharKeepsSpace(s[i]);
      SkipLeadingOfLower(s, i + 1);
    }
  }

  lemma {:induction false} SkipTrailingOfLower(s: string, lo: nat, j: nat)
    requires lo <= j <= |s|
    ensures SkipTrailing(ToLower(s), lo, j) == SkipTrailing(s, lo, j)
    decreases j
  {
    if j > lo {
      LowerCharKeepsSpace(s[j - 1]);
      SkipTrailingOfLower(s, lo, j - 1);
    }
  }

  /** Trimming and lower-casing commute, since no capital letter is white space. */
  lemma TrimSpaceOfLower(s: string)
    ensures TrimSpace(ToLower(s)) == ToLower(TrimSpace(s))
  {
    var start := SkipLeading(s, 0);
    SkipLeadingOfLower(s, 0);
    SkipTrailingOfLower(s, start, |s|);
    ToLowerSlice(s, start, SkipTrailing(s, start, |s|));
  }

  /** Trimming twice is trimming once. */
  lemma TrimSpaceIdempotent(s: string)
    ensures TrimSpace(TrimSpace(s)) == TrimSpace(s)
  {
    var _ := TrimSpaceSpec(s);
    var t := TrimSpace(s);
    assert SkipLeading(t, 0) == 0;
    assert SkipTrailing(t, 0, |t|) == |t|;
  }

  /**
   * A word whose ends are not white space, padded on both sides by white
   * space, trims back to the word: the trimmed part is exactly the padding.
   */
  lemma TrimSpacePadded(a: string, w: string, b: string)
    requires AllSpace(a) && AllSpace(b)
    requires |w| > 0 && !IsSpace(w[0]) && !IsSpace(w[|w| - 1])
    ensures TrimSpace(a + w + b) == w
  {
    var s := a + w + b;
    SkipLeadingSpec(s, 0);
    assert s[|a|] == w[0];
    assert SkipLeading(s, 0) == |a|;
    SkipTrailingSpec(s, |a|, |s|);
    assert s[|a| + |w| - 1] == w[|w| - 1];
    assert SkipTrailing(s, |a|, |s|) == |a| + |w|;
    assert s[|a|..|a| + |w|] == w;
  }
}
