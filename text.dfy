/**
 * The Python `str` operations the service relies on, with Python's semantics:
 * `strip()`, `lstrip()`, `rstrip()`, `lstrip(chars)`, `lower()`, slicing, `startswith`, `in`, `find`,
 * `split(sep)` and `join`.
 */
module Text {

  /** The characters for which Python's `str.isspace()` holds, which `strip()` removes. */
  predicate IsSpace(c: char) {
    c == ' ' || '\t' <= c <= '\r' || '\U{001C}' <= c <= '\U{001F}'
    || c == '\U{0085}' || c == '\U{00A0}' || c == '\U{1680}' || '\U{2000}' <= c <= '\U{200A}'
    || c == '\U{2028}' || c == '\U{2029}' || c == '\U{202F}' || c == '\U{205F}' || c == '\U{3000}'
  }

  /** Python truthiness of `s.strip()` is false exactly for blank strings. */
  predicate IsBlank(s: string) {
    forall i :: 0 <= i < |s| ==> IsSpace(s[i])
  }

  /** `s.lstrip(chars)`: drops the longest prefix made only of `chars`. */
  function TrimLeft(s: string, chars: set<char>): (r: string)
    ensures |r| <= |s| && r == s[|s| - |r|..]
    ensures r == [] || r[0] !in chars
    ensures forall i :: 0 <= i < |s| - |r| ==> s[i] in chars
    decreases |s|
  {
    if |s| > 0 && s[0] in chars then TrimLeft(s[1..], chars) else s
  }

  /** Two `lstrip` passes in a row remove only characters of one set or the other. */
  lemma TrimLeftTwice(s: string, a: set<char>, b: set<char>)
    ensures var r := TrimLeft(TrimLeft(s, a), b);
      forall i :: 0 <= i < |s| - |r| ==> s[i] in a || s[i] in b
  {
    var t := TrimLeft(s, a);
    var r := TrimLeft(t, b);
    forall i | |s| - |t| <= i < |s| - |r|
      ensures s[i] in b
    {
      SuffixIndex(s, t, i);
    }
  }

  /** `lstrip(chars)` of a string made only of `chars` is empty. */
  lemma TrimLeftOfAll(s: string, chars: set<char>)
    requires forall i :: 0 <= i < |s| ==> s[i] in chars
    ensures TrimLeft(s, chars) == []
  {
    var r := TrimLeft(s, chars);
    if r != [] {
      SuffixIndex(s, r, |s| - |r|);
    }
  }

  /** A character of `s` inside its suffix `t` is the matching character of `t`. */
  lemma SuffixIndex(s: string, t: string, i: int)
    requires |t| <= |s| && t == s[|s| - |t|..] && |s| - |t| <= i < |s|
    ensures s[i] == t[i - (|s| - |t|)]
  {
  }

  /** `lstrip(chars)` leaves a string alone when its first character is not in `chars`. */
  lemma TrimLeftStops(s: string, chars: set<char>)
    requires s == [] || s[0] !in chars
    ensures TrimLeft(s, chars) == s
  {
  }

  /** `s.lstrip()`: drops the leading whitespace. */
  function StripLeading(s: string): (r: string)
    ensures |r| <= |s| && r == s[|s| - |r|..]
    ensures r == [] || !IsSpace(r[0])
    ensures forall i :: 0 <= i < |s| - |r| ==> IsSpace(s[i])
    decreases |s|
  {
    if |s| > 0 && IsSpace(s[0]) then StripLeading(s[1..]) else s
  }

  /** `s.rstrip()`: drops the trailing whitespace. */
  function StripTrailing(s: string): (r: string)
    ensures |r| <= |s| && r == s[..|r|]
    ensures r == [] || !IsSpace(r[|r| - 1])
    ensures forall i :: |r| <= i < |s| ==> IsSpace(s[i])
    decreases |s|
  {
    if |s| > 0 && IsSpace(s[|s| - 1]) then StripTrailing(s[..|s| - 1]) else s
  }

  /** `s.strip()`: the string without leading and trailing whitespace. */
  function Strip(s: string): (r: string)
    ensures |r| <= |s|
    ensures r == [] || (!IsSpace(r[0]) && !IsSpace(r[|r| - 1]))
  {
    var t := StripLeading(s);
    assert s == s[..|s| - |t|] + t;
    StripTrailing(t)
  }

  /** Slicing a suffix `s[i..]` at `j` is slicing `s` at `i + j`. */
  lemma SlicesOfSuffix(s: string, i: nat, j: nat)
    requires i + j <= |s|
    ensures s[i..][..j] == s[i..i + j] && s[i..][j..] == s[i + j..]
  {
  }

  /** `strip()` is `lstrip()` followed by `rstrip()`. */
  lemma StripIsBothStrips(s: string)
    ensures Strip(s) == StripTrailing(StripLeading(s))
  {
  }

  /** `lstrip()` keeps a suffix and drops only whitespace before it. */
  lemma StripLeadingIsBlankCut(s: string) returns (i: nat)
    ensures i == |s| - |StripLeading(s)|
    ensures StripLeading(s) == s[i..] && IsBlank(s[..i])
  {
    i := |s| - |StripLeading(s)|;
  }

  /** `strip()` keeps a prefix of the `lstrip()` result and drops only whitespace after it. */
  lemma StripTrailingIsBlankCut(s: string)
    ensures var t := StripLeading(s);
      |Strip(s)| <= |t| && Strip(s) == t[..|Strip(s)|] && IsBlank(t[|Strip(s)|..])
  {
    StripIsBothStrips(s);
  }

  /**
   * A part `r` cut from the front of a suffix `t` of `s`, where what lies before
   * `t` and after `r` is blank, is a slice of `s` with blank margins.
   */
  lemma BlankMarginsAroundPart(s: string, t: string, r: string, i: nat)
    requires i == |s| - |t|
    requires |t| <= |s| && t == s[i..] && IsBlank(s[..i])
    requires |r| <= |t| && r == t[..|r|] && IsBlank(t[|r|..])
    ensures i + |r| <= |s| && r == s[i..i + |r|]
    ensures IsBlank(s[..i]) && IsBlank(s[i + |r|..])
  {
    SlicesOfSuffix(s, i, |r|);
  }

  /**
   * `strip()` returns the slice of its argument that starts after the leading
   * whitespace, with only whitespace before and after it.
   */
  lemma StripIsInfix(s: string) returns (i: nat)
    ensures i == |s| - |StripLeading(s)|
    ensures i + |Strip(s)| <= |s| && Strip(s) == s[i..i + |Strip(s)|]
    ensures IsBlank(s[..i]) && IsBlank(s[i + |Strip(s)|..])
  {
    i := StripCuts(s);
    BlankMarginsAroundPart(s, StripLeading(s), Strip(s), i);
  }

  /** The two cuts of `strip()`: blank before the `lstrip()` suffix, blank after the part it keeps. */
  lemma StripCuts(s: string) returns (i: nat)
    ensures i == |s| - |StripLeading(s)|
    ensures StripLeading(s) == s[i..] && IsBlank(s[..i])
    ensures var t := StripLeading(s);
      |Strip(s)| <= |t| && Strip(s) == t[..|Strip(s)|] && IsBlank(t[|Strip(s)|..])
  {
    i := StripLeadingIsBlankCut(s);
    StripTrailingIsBlankCut(s);
  }

  /** Only whitespace and characters of `extra`. */
  predicate SpaceOr(s: string, extra: set<char>) {
    forall k :: 0 <= k < |s| ==> IsSpace(s[k]) || s[k] in extra
  }

  /**
   * `r` is the slice `d[i..i + |r|]`, with only whitespace and characters of `extra`
   * before it in `d` and only whitespace after it.
   */
  predicate CutSlice(d: string, r: string, i: nat, extra: set<char>) {
    i + |r| <= |d| && r == d[i..i + |r|] && SpaceOr(d[..i], extra) && IsBlank(d[i + |r|..])
  }

  /** A slice with blank margins is such a slice. */
  lemma SliceCutSlice(s: string, r: string, i: nat, extra: set<char>)
    requires i + |r| <= |s| && r == s[i..i + |r|] && IsBlank(s[..i]) && IsBlank(s[i + |r|..])
    ensures CutSlice(s, r, i, extra)
  {
  }

  /** `strip()` cuts such a slice. */
  lemma StripCutSlice(s: string, extra: set<char>)
    ensures exists i: nat :: CutSlice(s, Strip(s), i, extra)
  {
    var i := StripCutSliceAt(s, extra);
  }

  /** `strip()` cuts such a slice after the leading whitespace. */
  lemma StripCutSliceAt(s: string, extra: set<char>) returns (i: nat)
    ensures CutSlice(s, Strip(s), i, extra)
  {
    i := StripIsInfix(s);
    SliceCutSlice(s, Strip(s), i, extra);
  }

  /** `lstrip(extra)` cuts such a slice: the rest of the string, after the characters of `extra`. */
  lemma TrimLeftCutSlice(s: string, extra: set<char>)
    ensures exists i: nat :: CutSlice(s, TrimLeft(s, extra), i, extra)
  {
    SuffixCutSlice(s, TrimLeft(s, extra), extra);
  }

  /** A suffix preceded only by whitespace and characters of `extra` is such a slice. */
  lemma SuffixCutSlice(s: string, t: string, extra: set<char>)
    requires |t| <= |s| && t == s[|s| - |t|..]
    requires forall k :: 0 <= k < |s| - |t| ==> IsSpace(s[k]) || s[k] in extra
    ensures CutSlice(s, t, |s| - |t|, extra)
  {
    var pre := s[..|s| - |t|];
    forall k | 0 <= k < |pre|
      ensures IsSpace(pre[k]) || pre[k] in extra
    {
      assert pre[k] == s[k];
    }
  }

  /** A slice of a slice is a slice, at the sum of the two offsets. */
  lemma CutSliceOfCutSlice(d: string, a: string, i: nat, b: string, j: nat, extra: set<char>)
    requires CutSlice(d, a, i, extra) && CutSlice(a, b, j, extra)
    ensures CutSlice(d, b, i + j, extra)
  {
    var n := i + j;
    var e := n + |b|;
    assert b == d[n..e] by {
      SlicesOfSuffix(d, i, |a|);
      assert a[j..j + |b|] == d[i..][j..j + |b|];
    }
    var pre := d[..n];
    forall k | 0 <= k < |pre|
      ensures IsSpace(pre[k]) || pre[k] in extra
    {
      if k < i {
        assert pre[k] == d[..i][k];
      } else {
        assert pre[k] == a[..j][k - i];
      }
    }
    var post := d[e..];
    forall k | 0 <= k < |post|
      ensures IsSpace(post[k])
    {
      if e + k < i + |a| {
        assert post[k] == a[j + |b|..][k];
      } else {
        assert post[k] == d[i + |a|..][e + k - i - |a|];
      }
    }
  }

  /** `lstrip(extra).strip()` cuts such a slice. */
  lemma TrimStripSlice(a: string, extra: set<char>)
    ensures exists j: nat :: CutSlice(a, Strip(TrimLeft(a, extra)), j, extra)
  {
    var b := TrimLeft(a, extra);
    TrimLeftCutSlice(a, extra);
    StripCutSlice(b, extra);
    var i1: nat :| CutSlice(a, b, i1, extra);
    var i2: nat :| CutSlice(b, Strip(b), i2, extra);
    CutSliceOfCutSlice(a, b, i1, Strip(b), i2, extra);
  }

  /** `strip().lstrip(extra).strip()` cuts such a slice. */
  lemma StripTrimStripSlice(d: string, extra: set<char>)
    ensures exists i: nat :: CutSlice(d, Strip(TrimLeft(Strip(d), extra)), i, extra)
  {
    var a := Strip(d);
    StripCutSlice(d, extra);
    TrimStripSlice(a, extra);
    var i1: nat :| CutSlice(d, a, i1, extra);
    var i2: nat :| CutSlice(a, Strip(TrimLeft(a, extra)), i2, extra);
    CutSliceOfCutSlice(d, a, i1, Strip(TrimLeft(a, extra)), i2, extra);
  }

  /** `strip()` leaves nothing exactly of a blank string. */
  lemma StripOfBlank(s: string)
    ensures Strip(s) == [] <==> IsBlank(s)
  {
    var t := StripLeading(s);
    assert s == s[..|s| - |t|] + t;
    if t != [] {
      assert !IsSpace(s[|s| - |t|]);
    }
  }

  /** A string that neither starts nor ends with whitespace is its own `strip()`. */
  lemma StripUnchanged(s: string)
    requires s == [] || (!IsSpace(s[0]) && !IsSpace(s[|s| - 1]))
    ensures Strip(s) == s
  {
  }

  /** `strip()` of a string whose first `n` characters are its only surrounding whitespace. */
  lemma StripIndented(s: string, n: nat)
    requires n < |s| && !IsSpace(s[n]) && !IsSpace(s[|s| - 1])
    requires forall i :: 0 <= i < n ==> IsSpace(s[i])
    ensures Strip(s) == s[n..]
  {
    var t := StripLeading(s);
    assert |s| - |t| == n;
    StripUnchanged(t);
  }

  /** A string indented by `n` whitespace characters, with `p` right after them, still starts with `p` once stripped. */
  lemma StripIndentedStartsWith(s: string, n: nat, p: string)
    requires n + |p| <= |s| && p != [] && !IsSpace(p[0]) && !IsSpace(s[|s| - 1])
    requires forall i :: 0 <= i < n ==> IsSpace(s[i])
    requires s[n..n + |p|] == p
    ensures StartsWith(Strip(s), p)
  {
    assert s[n] == p[0];
    StripIndented(s, n);
    assert s[n..][..|p|] == s[n..n + |p|];
  }

  /** `c.lower()` for ASCII letters; every other character is left as it is. */
  function LowerChar(c: char): char {
    if 'A' <= c <= 'Z' then (c as int + 32) as char else c
  }

  /** `s.lower()`, character by character. */
  function Lower(s: string): (r: string)
    ensures |r| == |s|
  {
    seq(|s|, i requires 0 <= i < |s| => LowerChar(s[i]))
  }

  /** Lower-casing commutes with slicing. */
  lemma LowerSlice(s: string, i: nat, j: nat)
    requires i <= j <= |s|
    ensures Lower(s)[i..j] == Lower(s[i..j])
  {
    assert forall k :: 0 <= k < j - i ==> Lower(s)[i..j][k] == Lower(s[i..j])[k];
  }

  /** Text without upper-case ASCII letters is its own `lower()`. */
  lemma LowerUnchanged(s: string)
    requires forall i :: 0 <= i < |s| ==> !('A' <= s[i] <= 'Z')
    ensures Lower(s) == s
  {
  }

  /** `lower()` leaves no upper-case ASCII letter. */
  lemma LowerHasNoUpper(s: string)
    ensures forall i :: 0 <= i < |s| ==> !('A' <= Lower(s)[i] <= 'Z')
  {
    forall i | 0 <= i < |s| ensures !('A' <= Lower(s)[i] <= 'Z') {
      assert Lower(s)[i] == LowerChar(s[i]);
    }
  }

  /** Lower-casing twice is lower-casing once. */
  lemma LowerTwice(s: string)
    ensures Lower(Lower(s)) == Lower(s)
  {
    LowerHasNoUpper(s);
    LowerUnchanged(Lower(s));
  }

  /** `s[:n]` for a non-negative `n`. */
  function Take(s: string, n: nat): string {
    if n <= |s| then s[..n] else s
  }

  /** `s[n:]` for a non-negative `n`: empty once `n` passes the end. */
  function Drop(s: string, n: nat): (r: string)
    ensures |r| == if n <= |s| then |s| - n else 0
  {
    if n <= |s| then s[n..] else []
  }

  /** `s.startswith(p)`. */
  predicate StartsWith(s: string, p: string) {
    |p| <= |s| && s[..|p|] == p
  }

  /** `p` occurs in `s` at position `i`. */
  predicate OccursAt(s: string, p: string, i: nat) {
    i + |p| <= |s| && s[i..i + |p|] == p
  }

  /** The least position at or after `i` where `p` occurs in `s`, or -1. */
  function FindFrom(s: string, p: string, i: nat): (r: int)
    requires i <= |s|
    ensures r == -1 || (i <= r && OccursAt(s, p, r))
    ensures r == -1 ==> forall j :: i <= j <= |s| ==> !OccursAt(s, p, j)
    ensures r != -1 ==> forall j :: i <= j < r ==> !OccursAt(s, p, j)
    decreases |s| - i
  {
    if OccursAt(s, p, i) then i
    else if i == |s| then -1
    else FindFrom(s, p, i + 1)
  }

  /** `s.find(p)`: the least position where `p` occurs in `s`, or -1. */
  function Find(s: string, p: string): (r: int)
    ensures r == -1 || (0 <= r && OccursAt(s, p, r))
    ensures r == -1 ==> forall j :: 0 <= j <= |s| ==> !OccursAt(s, p, j)
    ensures r != -1 ==> forall j :: 0 <= j < r ==> !OccursAt(s, p, j)
  {
    FindFrom(s, p, 0)
  }

  /** `p in s`. */
  predicate Contains(s: string, p: string) {
    Find(s, p) >= 0
  }

  /** `p in s` holds as soon as one occurrence is known. */
  lemma ContainsAt(s: string, p: string, i: nat)
    requires OccursAt(s, p, i)
    ensures Contains(s, p) && Find(s, p) <= i
  {
  }

  /** `p in s` holds exactly when `p` occurs somewhere in `s`. */
  lemma ContainsIffOccurs(s: string, p: string)
    ensures Contains(s, p) <==> exists i: nat :: OccursAt(s, p, i)
  {
    if exists i: nat :: OccursAt(s, p, i) {
      var i: nat :| OccursAt(s, p, i);
      ContainsAt(s, p, i);
    }
  }

  /** Text that does not contain the separator splits into itself alone. */
  lemma SplitWithoutSeparator(s: string, sep: string)
    requires |sep| > 0 && !Contains(s, sep)
    ensures Split(s, sep) == [s]
  {
  }

  /** An occurrence inside the prefix `s[..n]` is an occurrence in `s`. */
  lemma OccursInPrefix(s: string, p: string, n: nat, j: nat)
    requires n <= |s| && OccursAt(s[..n], p, j)
    ensures OccursAt(s, p, j)
  {
    assert s[..n][j..j + |p|] == s[j..j + |p|];
  }

  /** `sep.join(parts)`. */
  function Join(parts: seq<string>, sep: string): string
    decreases |parts|
  {
    if |parts| == 0 then []
    else if |parts| == 1 then parts[0]
    else parts[0] + sep + Join(parts[1..], sep)
  }

  /**
   * `s.split(sep)` for a non-empty separator: cuts at every occurrence of `sep`,
   * left to right and without overlap. Joining the pieces gives `s` back, no
   * piece contains the separator, and the first piece ends where the first
   * occurrence of `sep` starts (which fixes the cuts when `sep` can overlap itself).
   */
  function Split(s: string, sep: string): (parts: seq<string>)
    requires |sep| > 0
    ensures |parts| >= 1
    ensures Join(parts, sep) == s
    ensures forall k :: 0 <= k < |parts| ==> !Contains(parts[k], sep)
    ensures Find(s, sep) < 0 ==> parts == [s]
    ensures Find(s, sep) >= 0 ==> parts[0] == s[..Find(s, sep)] && |parts| >= 2
    decreases |s|
  {
    var i := Find(s, sep);
    if i < 0 then [s]
    else
      var rest := Split(s[i + |sep|..], sep);
      FirstPieceOfSplit(s, sep, i);
      JoinCons(s[..i], rest, sep);
      [s[..i]] + rest
  }

  /** Before the first occurrence of `sep` there is no `sep`, and `s` is that text, `sep` and the rest. */
  lemma FirstPieceOfSplit(s: string, sep: string, i: nat)
    requires |sep| > 0 && OccursAt(s, sep, i)
    requires forall j :: 0 <= j < i ==> !OccursAt(s, sep, j)
    ensures s == s[..i] + sep + s[i + |sep|..] && !Contains(s[..i], sep)
  {
    assert s == s[..i] + s[i..i + |sep|] + s[i + |sep|..];
    if Contains(s[..i], sep) {
      OccursInPrefix(s, sep, i, Find(s[..i], sep));
    }
  }

  /** Joining a first piece before more pieces puts the separator between them. */
  lemma JoinCons(head: string, rest: seq<string>, sep: string)
    requires |rest| >= 1
    ensures Join([head] + rest, sep) == head + sep + Join(rest, sep)
  {
    assert ([head] + rest)[1..] == rest;
  }
}
