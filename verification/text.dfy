/** The three JavaScript string primitives the chat room relies on:
    `String.prototype.trim` (deciding whether a draft is blank),
    `String.prototype.includes` and `String.prototype.replace` with a string
    pattern (normalising relative-time labels). JavaScript strings are
    sequences of UTF-16 code units, while a Dafny `char` is one Unicode code
    point. Every character the chat room inspects (the whitespace set, 少於,
    大約) lies in the Basic Multilingual Plane, where a code point is one
    code unit, so nothing here depends on the difference. */
module Text {
  import opened Wrappers

  /** The characters `trim` strips: the WhiteSpace and LineTerminator
      productions of ECMA-262 (TAB, VT, FF, ZWNBSP, every Unicode space
      separator, LF, CR, LINE SEPARATOR and PARAGRAPH SEPARATOR). */
  predicate IsWhitespace(c: char) {
    || c == '\t' || c == '\n' || c == '\U{000B}' || c == '\U{000C}' || c == '\r'
    || c == ' ' || c == '\U{00A0}' || c == '\U{1680}'
    || ('\U{2000}' <= c <= '\U{200A}')
    || c == '\U{2028}' || c == '\U{2029}' || c == '\U{202F}' || c == '\U{205F}'
    || c == '\U{3000}' || c == '\U{FEFF}'
  }

  /** A string made of whitespace only (the empty string included). */
  predicate IsBlank(s: string) {
    forall i :: 0 <= i < |s| ==> IsWhitespace(s[i])
  }

  /** Joining two blank strings gives a blank string. */
  lemma BlankConcat(a: string, b: string)
    requires IsBlank(a) && IsBlank(b)
    ensures IsBlank(a + b)
  {
  }

  /** Drops leading whitespace: the result is a suffix of `s`, the part cut
      off is blank, and the result does not start with whitespace. */
  function TrimStart(s: string): (r: string)
    ensures |r| <= |s| && r == s[|s| - |r|..]
    ensures IsBlank(s[..|s| - |r|])
    ensures r == [] || !IsWhitespace(r[0])
    decreases |s|
  {
    if |s| > 0 && IsWhitespace(s[0]) then
      var t := s[1..];
      var r := TrimStart(t);
      assert s[..|s| - |r|] == [s[0]] + t[..|t| - |r|];
      BlankConcat([s[0]], t[..|t| - |r|]);
      assert t[|t| - |r|..] == s[|s| - |r|..];
      r
    else
      s
  }

  /** Drops trailing whitespace: the result is a prefix of `s`, the part cut
      off is blank, and the result does not end with whitespace. */
  function TrimEnd(s: string): (r: string)
    ensures |r| <= |s| && r == s[..|r|]
    ensures IsBlank(s[|r|..])
    ensures r == [] || !IsWhitespace(r[|r| - 1])
    decreases |s|
  {
    if |s| > 0 && IsWhitespace(s[|s| - 1]) then
      var t := s[..|s| - 1];
      var r := TrimEnd(t);
      assert s[|r|..] == t[|r|..] + [s[|s| - 1]];
      BlankConcat(t[|r|..], [s[|s| - 1]]);
      assert t[..|r|] == s[..|r|];
      r
    else
      s
  }

  /** `String.prototype.trim`: the input with its blank prefix and its blank
      suffix cut off, leaving a result that neither starts nor ends with
      whitespace. */
  function Trim(s: string): (r: string)
    ensures |r| <= |s|
    ensures exists i, j :: 0 <= i <= j <= |s| && r == s[i..j] && IsBlank(s[..i]) && IsBlank(s[j..])
    ensures r == [] || (!IsWhitespace(r[0]) && !IsWhitespace(r[|r| - 1]))
  {
    var t := TrimStart(s);
    var r := TrimEnd(t);
    var i := |s| - |t|;
    assert r == s[i..i + |r|];
    assert s[i + |r|..] == t[|r|..];
    r
  }

  /** `s.trim() !== ''` exactly when `s` holds a non-whitespace character. */
  lemma TrimEmptyIffBlank(s: string)
    ensures Trim(s) == [] <==> IsBlank(s)
  {
  }

  /** Trimming twice is trimming once. */
  lemma TrimIdempotent(s: string)
    ensures Trim(Trim(s)) == Trim(s)
  {
  }

  /** `p` occurs in `s` starting at index `i`. */
  predicate IsAt(s: string, p: string, i: nat) {
    i + |p| <= |s| && s[i..i + |p|] == p
  }

  /** `s.indexOf(p, k)` for `k` not past the end: the first occurrence of
      `p` at or after `k`, or `None` (the JavaScript -1) when there is none. */
  function FindFrom(s: string, p: string, k: nat): (r: Option<nat>)
    requires k <= |s|
    ensures r.Some? ==> k <= r.value && IsAt(s, p, r.value)
    ensures r.Some? ==> forall j: nat :: k <= j < r.value ==> !IsAt(s, p, j)
    ensures r.None? <==> forall j: nat :: k <= j ==> !IsAt(s, p, j)
    decreases |s| - k
  {
    if k + |p| > |s| then None
    else if IsAt(s, p, k) then Some(k)
    else FindFrom(s, p, k + 1)
  }

  /** `s.indexOf(p)`. */
  function IndexOf(s: string, p: string): (r: Option<nat>)
    ensures r.Some? ==> IsAt(s, p, r.value)
    ensures r.Some? ==> forall j: nat :: j < r.value ==> !IsAt(s, p, j)
    ensures r.None? <==> forall j: nat :: !IsAt(s, p, j)
  {
    FindFrom(s, p, 0)
  }

  /** The occurrence `indexOf` reports is the first one, wherever that is. */
  lemma IndexOfFirst(s: string, p: string, i: nat)
    requires IsAt(s, p, i)
    requires forall j: nat :: j < i ==> !IsAt(s, p, j)
    ensures IndexOf(s, p) == Some(i)
  {
  }

  /** `s.includes(p)`: some occurrence of `p` exists. */
  predicate Contains(s: string, p: string)
    ensures Contains(s, p) <==> exists i: nat :: IsAt(s, p, i)
  {
    IndexOf(s, p).Some?
  }

  /** `s.replace(p, t)` with a string pattern: only the first occurrence of
      `p` is replaced; without one, `s` is returned as it is. The
      replacement is taken literally: JavaScript would expand `$&`, `$$`,
      `` $` `` and `$'` in `t`, which the chat room never passes (it
      replaces with the empty string). */
  function ReplaceFirst(s: string, p: string, t: string): (r: string)
    ensures !Contains(s, p) ==> r == s
  {
    match IndexOf(s, p)
    case None => s
    case Some(i) => s[..i] + t + s[i + |p|..]
  }

  /** Where the first occurrence is at `i`, the result is `s` with exactly
      that one occurrence swapped for `t`. */
  lemma ReplaceFirstAt(s: string, p: string, t: string, i: nat)
    requires IsAt(s, p, i)
    requires forall j: nat :: j < i ==> !IsAt(s, p, j)
    ensures ReplaceFirst(s, p, t) == s[..i] + t + s[i + |p|..]
    ensures |ReplaceFirst(s, p, t)| == |s| - |p| + |t|
  {
  }

  /** Replacement happens once: an occurrence of `p` lying wholly after the
      first one is still present, shifted by the change in length. */
  lemma ReplaceFirstKeepsLaterOccurrences(s: string, p: string, t: string, i: nat, j: nat)
    requires IsAt(s, p, i)
    requires forall k: nat :: k < i ==> !IsAt(s, p, k)
    requires i + |p| <= j && IsAt(s, p, j)
    ensures IsAt(ReplaceFirst(s, p, t), p, j - |p| + |t|)
  {
  }
}
