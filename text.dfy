/**
 The JavaScript string operations the renaming script relies on:
 `String.prototype.trim`, `startsWith`, `indexOf`, `split` with a
 one-character separator, and `Array.prototype.join`.
 */
module Text {
  import opened Wrappers

  /** The characters `trim` removes: ECMAScript WhiteSpace (TAB, VT, FF,
      ZWNBSP and the Zs category) and LineTerminator (LF, CR, LS, PS). */
  predicate IsWhitespace(c: char) {
    || c == ' ' || c == '\t' || c == '\n' || c == '\r' || c == '\U{B}' || c == '\U{C}'
    || c == '\U{A0}' || c == '\U{1680}' || ('\U{2000}' <= c <= '\U{200A}')
    || c == '\U{2028}' || c == '\U{2029}' || c == '\U{202F}' || c == '\U{205F}'
    || c == '\U{3000}' || c == '\U{FEFF}'
  }

  /** A string that `trim` leaves as it is. */
  predicate IsTrimmed(s: string) {
    s == [] || (!IsWhitespace(s[0]) && !IsWhitespace(s[|s| - 1]))
  }

  /** `s` without its leading whitespace: a suffix of `s`. */
  function TrimStart(s: string): (r: string)
    ensures |r| <= |s| && r == s[|s| - |r|..]
    ensures r == [] || !IsWhitespace(r[0])
    ensures forall k :: 0 <= k < |s| - |r| ==> IsWhitespace(s[k])
  {
    if |s| > 0 && IsWhitespace(s[0]) then TrimStart(s[1..]) else s
  }

  /** `s` without its trailing whitespace: a prefix of `s`. */
  function TrimEnd(s: string): (r: string)
    ensures |r| <= |s| && r == s[..|r|]
    ensures r == [] || !IsWhitespace(r[|r| - 1])
    ensures forall k :: |r| <= k < |s| ==> IsWhitespace(s[k])
  {
    if |s| > 0 && IsWhitespace(s[|s| - 1]) then TrimEnd(s[..|s| - 1]) else s
  }

  /** Everything in `s` before `i` and from `j` on is whitespace. */
  predicate WhitespaceOutside(s: string, i: nat, j: nat)
    requires i <= j <= |s|
  {
    && (forall k :: 0 <= k < i ==> IsWhitespace(s[k]))
    && (forall k :: j <= k < |s| ==> IsWhitespace(s[k]))
  }

  /** `String.prototype.trim`: the result has no whitespace at either end
      and every character in it occurs in `s`; `TrimSlice` says which slice it is. */
  function Trim(s: string): (r: string)
    ensures IsTrimmed(r)
    ensures |r| <= |s|
    ensures forall c :: c in r ==> c in s
  {
    TrimEnd(TrimStart(s))
  }

  /** `trim` removes exactly the leading and the trailing whitespace: its
      result is the slice of `s` around which only whitespace lies. */
  lemma TrimSlice(s: string)
    ensures exists i, j :: 0 <= i <= j <= |s| && Trim(s) == s[i..j] && WhitespaceOutside(s, i, j)
  {
    SliceBetween(s, TrimStart(s), TrimEnd(TrimStart(s)));
  }

  /** A prefix `r` of a suffix `u` of `s`, where only whitespace was dropped
      on either side, is a slice of `s` with only whitespace around it. */
  lemma SliceBetween(s: string, u: string, r: string)
    requires |u| <= |s| && u == s[|s| - |u|..]
    requires forall k :: 0 <= k < |s| - |u| ==> IsWhitespace(s[k])
    requires |r| <= |u| && r == u[..|r|]
    requires forall k :: |r| <= k < |u| ==> IsWhitespace(u[k])
    ensures exists i, j :: 0 <= i <= j <= |s| && r == s[i..j] && WhitespaceOutside(s, i, j)
  {
    var i := |s| - |u|;
    var j := i + |r|;
    assert r == s[i..j];
    forall k | j <= k < |s| ensures IsWhitespace(s[k]) {
      assert s[k] == u[k - i];
    }
    assert WhitespaceOutside(s, i, j);
  }

  /** `trim` leaves an already trimmed string unchanged; in particular it is idempotent. */
  lemma TrimTrimmed(s: string)
    requires IsTrimmed(s)
    ensures Trim(s) == s
  {
  }

  lemma TrimIdempotent(s: string)
    ensures Trim(Trim(s)) == Trim(s)
  {
    TrimTrimmed(Trim(s));
  }

  /** A character absent from a text is absent from each of its slices. */
  lemma SliceAvoids(x: char, s: string, i: nat, j: nat)
    requires i <= j <= |s| && x !in s
    ensures x !in s[i..j] && x !in s[..j] && x !in s[i..]
  {
    forall k | 0 <= k < j - i ensures s[i..j][k] != x {
      assert s[i..j][k] == s[i + k];
    }
    assert s[..j] == s[0..j];
    forall k | 0 <= k < |s| - i ensures s[i..][k] != x {
      assert s[i..][k] == s[i + k];
    }
  }

  /** `s.startsWith(p)`. */
  predicate StartsWith(s: string, p: string) {
    |p| <= |s| && s[..|p|] == p
  }

  /** `pat` occurs in `s` at position `i`. */
  predicate OccursAt(s: string, pat: string, i: nat) {
    i + |pat| <= |s| && s[i..i + |pat|] == pat
  }

  /** `s.indexOf(pat, from)`: the first position at or after `from` where `pat` occurs. */
  function IndexOfFrom(s: string, pat: string, from: nat): (r: Option<nat>)
    requires from <= |s|
    ensures r.Some? ==> from <= r.value && OccursAt(s, pat, r.value)
    ensures r.Some? ==> forall k :: from <= k < r.value ==> !OccursAt(s, pat, k)
    ensures r.None? ==> forall k :: from <= k <= |s| ==> !OccursAt(s, pat, k)
    decreases |s| - from
  {
    if OccursAt(s, pat, from) then Some(from)
    else if from == |s| then None
    else IndexOfFrom(s, pat, from + 1)
  }

  /** `s.indexOf(pat)`, with `None` for the script's `-1`. */
  function IndexOf(s: string, pat: string): (r: Option<nat>)
    ensures r.Some? ==> OccursAt(s, pat, r.value)
    ensures r.Some? ==> forall k :: 0 <= k < r.value ==> !OccursAt(s, pat, k)
    ensures r.None? ==> forall k :: 0 <= k <= |s| ==> !OccursAt(s, pat, k)
  {
    IndexOfFrom(s, pat, 0)
  }

  /** The first occurrence determines `indexOf`. */
  lemma IndexOfFirst(s: string, pat: string, i: nat)
    requires OccursAt(s, pat, i)
    requires forall k :: 0 <= k < i ==> !OccursAt(s, pat, k)
    ensures IndexOf(s, pat) == Some(i)
  {
  }

  /** The first position of the character `c` in `s`. */
  function FirstIndexOfChar(s: string, c: char): (i: nat)
    requires c in s
    ensures i < |s| && s[i] == c && c !in s[..i]
  {
    if s[0] == c then 0
    else
      var j := FirstIndexOfChar(s[1..], c);
      assert s[..j + 1] == [s[0]] + s[1..][..j];
      j + 1
  }

  lemma FirstIndexOfCharUnique(s: string, c: char, i: nat)
    requires i < |s| && s[i] == c && c !in s[..i]
    ensures FirstIndexOfChar(s, c) == i
  {
  }

  /** `s.split(c)`: the pieces of `s` between occurrences of `c`; never empty. */
  function Split(s: string, c: char): (r: seq<string>)
    ensures |r| >= 1
    decreases |s|
  {
    if c in s then
      var i := FirstIndexOfChar(s, c);
      [s[..i]] + Split(s[i + 1..], c)
    else
      [s]
  }

  /** No piece of a split contains the separator. */
  lemma {:induction false} SplitPiecesLackSeparator(s: string, c: char)
    ensures forall k :: 0 <= k < |Split(s, c)| ==> c !in Split(s, c)[k]
    decreases |s|
  {
    if c in s {
      var i := FirstIndexOfChar(s, c);
      SplitPiecesLackSeparator(s[i + 1..], c);
    }
  }

  lemma SplitWithout(s: string, c: char)
    requires c !in s
    ensures Split(s, c) == [s]
  {
  }

  lemma SplitAtFirst(s: string, c: char, i: nat)
    requires i < |s| && s[i] == c && c !in s[..i]
    ensures Split(s, c) == [s[..i]] + Split(s[i + 1..], c)
  {
    FirstIndexOfCharUnique(s, c, i);
  }

  /** `parts.join(c)`. */
  function Join(parts: seq<string>, c: char): string {
    if |parts| == 0 then ""
    else if |parts| == 1 then parts[0]
    else parts[0] + [c] + Join(parts[1..], c)
  }

  /** Joining four pieces puts the separator between each neighbouring pair. */
  lemma JoinFour(g: seq<string>, c: char)
    requires |g| == 4
    ensures Join(g, c) == g[0] + [c] + g[1] + [c] + g[2] + [c] + g[3]
  {
    assert g[1..][1..] == g[2..] && g[2..][1..] == g[3..];
    assert Join(g[2..], c) == g[2] + [c] + g[3];
    assert Join(g[1..], c) == g[1] + [c] + (g[2] + [c] + g[3]);
    assert Join(g, c) == g[0] + [c] + (g[1] + [c] + (g[2] + [c] + g[3]));
  }

  /** Splitting and joining on the same character give back the original text. */
  lemma {:induction false} JoinSplit(s: string, c: char)
    ensures Join(Split(s, c), c) == s
    decreases |s|
  {
    if c in s {
      var i := FirstIndexOfChar(s, c);
      var tail := Split(s[i + 1..], c);
      var parts := [s[..i]] + tail;
      assert Split(s, c) == parts;
      assert parts[1..] == tail;
      assert Join(parts, c) == s[..i] + [c] + Join(tail, c);
      JoinSplit(s[i + 1..], c);
      assert s == s[..i] + [c] + s[i + 1..];
    }
  }

  /** Joining pieces that do not contain the separator and splitting again
      gives back the same pieces, in the same order. */
  lemma {:induction false} SplitJoin(parts: seq<string>, c: char)
    requires |parts| >= 1
    requires forall k :: 0 <= k < |parts| ==> c !in parts[k]
    ensures Split(Join(parts, c), c) == parts
  {
    if |parts| > 1 {
      var rest := Join(parts[1..], c);
      var s := parts[0] + [c] + rest;
      assert s[..|parts[0]|] == parts[0];
      FirstIndexOfCharUnique(s, c, |parts[0]|);
      assert s[|parts[0]| + 1..] == rest;
      SplitJoin(parts[1..], c);
    }
  }
}
