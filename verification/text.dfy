/** The Python string primitives the scan engine relies on: `str.isspace`,
    `str.strip`, `str.replace("\n", " ")`, an ASCII `str.lower`, `str.find`,
    `str.startswith` and slicing with indices past the end. */
module Text {

  /** Python's `str.isspace()` for one character. */
  predicate IsSpace(c: char) {
    || ('\t' <= c <= '\r')
    || ('\U{1C}' <= c <= ' ')
    || c == '\U{85}' || c == '\U{A0}' || c == '\U{1680}'
    || ('\U{2000}' <= c <= '\U{200A}')
    || c == '\U{2028}' || c == '\U{2029}' || c == '\U{202F}' || c == '\U{205F}'
    || c == '\U{3000}'
  }

  /** Lower-casing restricted to ASCII letters, so that it keeps lengths. */
  function LowerChar(c: char): char {
    if 'A' <= c <= 'Z' then (c as int + 32) as char else c
  }

  function Lower(s: string): (r: string)
    ensures |r| == |s|
    ensures forall i :: 0 <= i < |s| ==> r[i] == LowerChar(s[i])
  {
    seq(|s|, i requires 0 <= i < |s| => LowerChar(s[i]))
  }

  /** `s.replace("\n", " ")` */
  function ReplaceNewlines(s: string): (r: string)
    ensures |r| == |s|
    ensures forall i :: 0 <= i < |s| ==> r[i] == if s[i] == '\n' then ' ' else s[i]
  {
    seq(|s|, i requires 0 <= i < |s| => if s[i] == '\n' then ' ' else s[i])
  }

  lemma ReplaceNewlinesSlice(s: string, lo: nat, hi: nat)
    requires lo <= hi <= |s|
    ensures ReplaceNewlines(s)[lo..hi] == ReplaceNewlines(s[lo..hi])
  {
  }

  /** The position of the first non-whitespace character at or after `i`
      (or `|s|`). */
  function SkipSpaces(s: string, i: nat): (j: nat)
    requires i <= |s|
    ensures i <= j <= |s|
    ensures forall k :: i <= k < j ==> IsSpace(s[k])
    ensures j == |s| || !IsSpace(s[j])
    decreases |s| - i
  {
    if i < |s| && IsSpace(s[i]) then SkipSpaces(s, i + 1) else i
  }

  /** The position just after the last non-whitespace character before `j`
      (or 0). */
  function SkipSpacesBack(s: string, j: nat): (i: nat)
    requires j <= |s|
    ensures i <= j
    ensures forall k :: i <= k < j ==> IsSpace(s[k])
    ensures i == 0 || !IsSpace(s[i - 1])
  {
    if j > 0 && IsSpace(s[j - 1]) then SkipSpacesBack(s, j - 1) else j
  }

  /** `s.lstrip()` */
  function LStrip(s: string): string {
    s[SkipSpaces(s, 0)..]
  }

  /** `s.rstrip()` */
  function RStrip(s: string): string {
    s[..SkipSpacesBack(s, |s|)]
  }

  /** `s.strip()`: never longer than `s`, and neither starts nor ends with
      whitespace (StripIsInner). */
  function Strip(s: string): (t: string)
    ensures |t| <= |s|
    ensures t == [] || (!IsSpace(t[0]) && !IsSpace(t[|t| - 1]))
  {
    RStrip(LStrip(s))
  }

  /** `strip` cuts only whitespace, only at the two ends, and leaves text that
      neither starts nor ends with whitespace. */
  lemma StripIsInner(s: string)
    ensures var t := Strip(s);
            var lead := SkipSpaces(s, 0);
            && lead + |t| <= |s|
            && t == s[lead..lead + |t|]
            && (forall i :: 0 <= i < lead ==> IsSpace(s[i]))
            && (forall i :: lead + |t| <= i < |s| ==> IsSpace(s[i]))
            && (t == [] || (!IsSpace(t[0]) && !IsSpace(t[|t| - 1])))
  {
    var lead := SkipSpaces(s, 0);
    var l := s[lead..];
    var cut := SkipSpacesBack(l, |l|);
    var t := l[..cut];
    assert t == Strip(s);
    forall i | lead + |t| <= i < |s| ensures IsSpace(s[i]) {
      assert s[i] == l[i - lead];
    }
    if t != [] {
      assert t[0] == s[lead];
      assert t[|t| - 1] == l[cut - 1];
    }
  }

  /** Stripping text that does not start with whitespace only cuts its end,
      so whatever lies inside the stripped text stays at its place. */
  lemma StripKeepsSlice(s: string, k: nat, e: nat)
    requires s == [] || !IsSpace(s[0])
    requires k <= e <= |Strip(s)|
    ensures e <= |s| && Strip(s)[k..e] == s[k..e]
  {
    assert SkipSpaces(s, 0) == 0;
    assert LStrip(s) == s by {
      assert s[0..] == s;
    }
    var cut := SkipSpacesBack(s, |s|);
    assert Strip(s) == s[..cut];
  }

  /** A string without newlines is unchanged by `replace("\n", " ")`. */
  lemma ReplaceNewlinesNone(s: string)
    requires '\n' !in s
    ensures ReplaceNewlines(s) == s
  {
  }

  /** `s.startswith(prefix)` */
  predicate StartsWith(s: string, prefix: string) {
    |prefix| <= |s| && s[..|prefix|] == prefix
  }

  /** `s[:k]` for a non-negative `k`, which may exceed `len(s)`. */
  function PyTake(s: string, k: nat): (r: string)
    ensures |r| == if k <= |s| then k else |s|
    ensures r <= s
  {
    if k <= |s| then s[..k] else s
  }

  /** `s[k:]` for a non-negative `k`, which may exceed `len(s)`. */
  function PyDrop(s: string, k: nat): (r: string)
    ensures k <= |s| ==> r == s[k..]
    ensures |s| < k ==> r == []
  {
    if k <= |s| then s[k..] else []
  }

  /** `needle` occurs in `hay` at position `i`. */
  predicate OccursAt(hay: string, needle: string, i: int) {
    0 <= i && i + |needle| <= |hay| && hay[i..i + |needle|] == needle
  }

  /** `hay.find(needle, start)`: the lowest position at or after `start` where
      `needle` occurs, or -1 when there is none (FindSpec). */
  function Find(hay: string, needle: string, start: nat): (r: int)
    ensures r == -1 || start <= r <= |hay| - |needle|
    decreases |hay| - start
  {
    if start + |needle| > |hay| then -1
    else if hay[start..start + |needle|] == needle then start
    else
      assert |needle| > 0;
      Find(hay, needle, start + 1)
  }

  /** `find` answers an occurrence at or after `start` with no earlier one, or
      -1 exactly when there is no occurrence at or after `start`. */
  lemma {:induction false} FindSpec(hay: string, needle: string, start: nat)
    ensures var r := Find(hay, needle, start);
            && (r == -1 || OccursAt(hay, needle, r))
            && (forall i :: start <= i && (r == -1 || i < r) ==> !OccursAt(hay, needle, i))
    decreases |hay| - start
  {
    if start + |needle| <= |hay| && hay[start..start + |needle|] != needle {
      FindSpec(hay, needle, start + 1);
    }
  }
}
