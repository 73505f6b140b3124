/** The few methods of Python's `str` that the caption compiler and the
    channel parsers call: `strip`, `replace`, `split(sep)[0]`, `sep.join`
    and the `in` substring test. Strings are sequences of code points. */
module Strings {

  /** Python's `str.isspace()` on one character; `str.strip()` with no
      argument removes exactly these. */
  predicate IsSpace(c: char) {
    || ('\t' <= c <= '\r') || ('\U{1C}' <= c <= ' ')
    || c == '\U{85}' || c == '\U{A0}' || c == '\U{1680}'
    || ('\U{2000}' <= c <= '\U{200A}') || c == '\U{2028}' || c == '\U{2029}'
    || c == '\U{202F}' || c == '\U{205F}' || c == '\U{3000}'
  }

  /** Drops the leading characters `drop` holds of. */
  function TrimLeft(s: string, drop: char -> bool): (r: string)
    ensures |r| <= |s| && r == s[|s| - |r|..]
    ensures forall i :: 0 <= i < |s| - |r| ==> drop(s[i])
    ensures r == [] || !drop(r[0])
  {
    if s != [] && drop(s[0]) then TrimLeft(s[1..], drop) else s
  }

  /** Drops the trailing characters `drop` holds of. */
  function TrimRight(s: string, drop: char -> bool): (r: string)
    ensures |r| <= |s| && r == s[..|r|]
    ensures forall i :: |r| <= i < |s| ==> drop(s[i])
    ensures r == [] || !drop(r[|r| - 1])
  {
    if s != [] && drop(s[|s| - 1]) then TrimRight(s[..|s| - 1], drop) else s
  }

  /** Python's `s.strip(chars)`: the characters `drop` holds of are removed
      from both ends and nowhere else. */
  function StripChars(s: string, drop: char -> bool): (r: string)
    ensures r == [] || (!drop(r[0]) && !drop(r[|r| - 1]))
  {
    TrimRight(TrimLeft(s, drop), drop)
  }

  /** Python's `s.strip()`. */
  function Strip(s: string): string {
    StripChars(s, IsSpace)
  }

  /** `strip` keeps a contiguous middle slice `s[i..j]`: everything before `i`
      and from `j` on satisfies `drop`. */
  lemma StripCharsSlice(s: string, drop: char -> bool) returns (i: nat, j: nat)
    ensures i <= j <= |s| && StripChars(s, drop) == s[i..j]
    ensures forall k :: 0 <= k < i ==> drop(s[k])
    ensures forall k :: j <= k < |s| ==> drop(s[k])
  {
    var l := TrimLeft(s, drop);
    var r := TrimRight(l, drop);
    i := |s| - |l|;
    j := i + |r|;
    forall k | 0 <= k < |r| ensures s[i..j][k] == r[k] {
      assert r[k] == l[k] == s[i + k];
    }
    assert s[i..j] == r;
    forall k | j <= k < |s| ensures drop(s[k]) {
      assert s[k] == l[k - i];
    }
  }

  /** A string that neither starts nor ends with a character `drop` holds of
      is left unchanged by `strip`. */
  lemma StripCharsUnchanged(s: string, drop: char -> bool)
    requires s == [] || (!drop(s[0]) && !drop(s[|s| - 1]))
    ensures StripChars(s, drop) == s
  {
  }

  /** `pat` occurs in `s` at position `i`. */
  predicate OccursAt(pat: string, s: string, i: int) {
    0 <= i && i + |pat| <= |s| && s[i..i + |pat|] == pat
  }

  /** Python's `pat in s` on two strings. */
  predicate IsSubstring(pat: string, s: string) {
    exists i | 0 <= i <= |s| - |pat| :: OccursAt(pat, s, i)
  }

  /** Python's `s.replace(pat, rep)` for a non-empty `pat`: occurrences are
      replaced left to right without overlapping. */
  function Replace(s: string, pat: string, rep: string): (r: string)
    requires |pat| > 0
    ensures |pat| == 1 && pat[0] !in rep ==> pat[0] !in r
    ensures forall c :: c in r ==> c in s || c in rep
    ensures |pat| == 1 ==> forall c :: c in s && c != pat[0] ==> c in r
    ensures |pat| == 1 && pat[0] !in s ==> r == s
    decreases |s|
  {
    if |s| >= |pat| && s[..|pat|] == pat then
      rep + Replace(s[|pat|..], pat, rep)
    else if s == [] then
      []
    else
      [s[0]] + Replace(s[1..], pat, rep)
  }

  /** Python's `s.split(sep)[0]`: the text before the first occurrence of
      `sep`, or all of `s` when there is none. */
  function Before(s: string, sep: string): (r: string)
    requires |sep| > 0
    ensures |r| <= |s| && r == s[..|r|]
    ensures r == s || OccursAt(sep, s, |r|)
    ensures forall i :: 0 <= i < |r| ==> !OccursAt(sep, s, i)
    decreases |s|
  {
    if |s| < |sep| then s
    else if s[..|sep|] == sep then []
    else
      var rest := Before(s[1..], sep);
      OccursShifted(sep, s);
      assert s[..|rest| + 1] == [s[0]] + s[1..][..|rest|];
      [s[0]] + rest
  }

  /** An occurrence past the first character of `s` is an occurrence in
      `s[1..]`, one position earlier. */
  lemma OccursShifted(sep: string, s: string)
    requires |s| > 0
    ensures forall i :: 1 <= i ==> (OccursAt(sep, s, i) <==> OccursAt(sep, s[1..], i - 1))
  {
    forall i | 1 <= i
      ensures OccursAt(sep, s, i) <==> OccursAt(sep, s[1..], i - 1)
    {
      if i + |sep| <= |s| {
        var t := s[1..];
        var a, b := s[i..i + |sep|], t[i - 1..i - 1 + |sep|];
        assert forall k :: 0 <= k < |sep| ==> a[k] == b[k];
        assert a == b;
      }
    }
  }

  /** Python's `sep.join(parts)`. */
  function Join(sep: string, parts: seq<string>): string {
    if |parts| == 0 then ""
    else if |parts| == 1 then parts[0]
    else Join(sep, parts[..|parts| - 1]) + sep + parts[|parts| - 1]
  }
}
