/** String helpers the components call: `String.prototype.trim` and the
    first-letter capitalisation `s.charAt(0).toUpperCase() + s.slice(1)`. */
module Text {

  /** ECMAScript's WhiteSpace and LineTerminator code points, the characters
      `trim` removes: tab, line feed, vertical tab, form feed, carriage
      return, space, no-break space, the byte order mark, the line and
      paragraph separators and the other space separators (category Zs). */
  predicate IsWhitespace(c: char) {
    || c == '\t' || c == '\n' || c == '\U{000B}' || c == '\U{000C}' || c == '\r'
    || c == ' ' || c == '\U{00A0}' || c == '\U{1680}'
    || ('\U{2000}' <= c <= '\U{200A}')
    || c == '\U{2028}' || c == '\U{2029}' || c == '\U{202F}' || c == '\U{205F}'
    || c == '\U{3000}' || c == '\U{FEFF}'
  }

  predicate AllWhitespace(s: string) {
    forall i :: 0 <= i < |s| ==> IsWhitespace(s[i])
  }

  /** Neither the first nor the last character is whitespace. */
  predicate NoSurroundingWhitespace(s: string) {
    s == [] || (!IsWhitespace(s[0]) && !IsWhitespace(s[|s| - 1]))
  }

  /** `r` is what is left of `s` once the whitespace prefix `s[..i]` and the
      whitespace suffix `s[j..]` are cut off, and nothing more can be cut. */
  predicate TrimCut(r: string, s: string, i: int, j: int) {
    0 <= i <= j <= |s| && r == s[i..j]
    && AllWhitespace(s[..i]) && AllWhitespace(s[j..])
    && NoSurroundingWhitespace(r)
  }

  /** `r` is `s` with a whitespace prefix and a whitespace suffix cut off,
      and nothing more can be cut: the defining property of `trim`. */
  predicate IsTrimOf(r: string, s: string) {
    exists i, j | 0 <= i <= j <= |s| :: TrimCut(r, s, i, j)
  }

  /** Drops leading whitespace. */
  function TrimStart(s: string): (r: string)
    ensures |r| <= |s| && r == s[|s| - |r|..]
    ensures AllWhitespace(s[..|s| - |r|])
    ensures r == [] || !IsWhitespace(r[0])
  {
    if |s| > 0 && IsWhitespace(s[0]) then
      var r := TrimStart(s[1..]);
      assert s[..|s| - |r|] == [s[0]] + s[1..][..|s| - 1 - |r|];
      r
    else s
  }

  /** Drops trailing whitespace. */
  function TrimEnd(s: string): (r: string)
    ensures |r| <= |s| && r == s[..|r|]
    ensures AllWhitespace(s[|r|..])
    ensures r == [] || !IsWhitespace(r[|r| - 1])
  {
    if |s| > 0 && IsWhitespace(s[|s| - 1]) then
      var r := TrimEnd(s[..|s| - 1]);
      assert s[|r|..] == s[..|s| - 1][|r|..] + [s[|s| - 1]];
      r
    else s
  }

  /** `s.trim()`: the middle of `s` between its leading and trailing whitespace. */
  function Trim(s: string): (r: string)
    ensures IsTrimOf(r, s)
  {
    var t := TrimStart(s);
    var r := TrimEnd(t);
    TrimOfParts(s, t, r);
    r
  }

  /** Cutting the whitespace prefix and then the whitespace suffix, each as
      far as it goes, is a trim. */
  lemma TrimOfParts(s: string, t: string, r: string)
    requires |t| <= |s| && t == s[|s| - |t|..] && AllWhitespace(s[..|s| - |t|])
    requires t == [] || !IsWhitespace(t[0])
    requires |r| <= |t| && r == t[..|r|] && AllWhitespace(t[|r|..])
    requires r == [] || !IsWhitespace(r[|r| - 1])
    ensures IsTrimOf(r, s)
  {
    var i := |s| - |t|;
    assert r == s[i..i + |r|];
    assert s[i + |r|..] == t[|r|..];
    assert r != [] ==> r[0] == t[0];
    assert TrimCut(r, s, i, i + |r|);
  }

  /** Only one string is a trim of `s`, so `IsTrimOf` pins `Trim` down. */
  lemma TrimOfIsUnique(r1: string, r2: string, s: string)
    requires IsTrimOf(r1, s) && IsTrimOf(r2, s)
    ensures r1 == r2
  {
    var i1, j1 :| TrimCut(r1, s, i1, j1);
    var i2, j2 :| TrimCut(r2, s, i2, j2);
    CutsAgree(r1, r2, s, i1, j1, i2, j2);
  }

  /** Two cuts that both leave no surrounding whitespace leave the same middle. */
  lemma CutsAgree(r1: string, r2: string, s: string, i1: int, j1: int, i2: int, j2: int)
    requires TrimCut(r1, s, i1, j1) && TrimCut(r2, s, i2, j2)
    ensures r1 == r2
  {
    if r1 == r2 {
    } else if r1 == [] {
      EmptyCutIsAllWhitespace(r1, s, i1, j1);
      NonEmptyCutIsNotAllWhitespace(r2, s, i2, j2);
    } else if r2 == [] {
      EmptyCutIsAllWhitespace(r2, s, i2, j2);
      NonEmptyCutIsNotAllWhitespace(r1, s, i1, j1);
    } else {
      SameStart(s, i1, i2);
      SameEnd(s, j1, j2);
    }
  }

  /** A cut that leaves nothing was taken from an all-whitespace string. */
  lemma EmptyCutIsAllWhitespace(r: string, s: string, i: int, j: int)
    requires TrimCut(r, s, i, j) && r == []
    ensures AllWhitespace(s)
  {
    WhitespaceAround(s, i, j);
  }

  /** A cut that leaves something starts at a non-whitespace character of `s`. */
  lemma NonEmptyCutIsNotAllWhitespace(r: string, s: string, i: int, j: int)
    requires TrimCut(r, s, i, j) && r != []
    ensures !AllWhitespace(s)
  {
    assert s[i] == r[0];
  }

  /** Two whitespace prefixes that both stop at a non-whitespace character
      have the same length. */
  lemma SameStart(s: string, i1: int, i2: int)
    requires 0 <= i1 < |s| && 0 <= i2 < |s|
    requires AllWhitespace(s[..i1]) && !IsWhitespace(s[i1])
    requires AllWhitespace(s[..i2]) && !IsWhitespace(s[i2])
    ensures i1 == i2
  {
    forall k | 0 <= k < i1 ensures IsWhitespace(s[k]) {
      assert s[..i1][k] == s[k];
    }
    forall k | 0 <= k < i2 ensures IsWhitespace(s[k]) {
      assert s[..i2][k] == s[k];
    }
  }

  /** Two whitespace suffixes that both start after a non-whitespace
      character have the same length. */
  lemma SameEnd(s: string, j1: int, j2: int)
    requires 0 < j1 <= |s| && 0 < j2 <= |s|
    requires AllWhitespace(s[j1..]) && !IsWhitespace(s[j1 - 1])
    requires AllWhitespace(s[j2..]) && !IsWhitespace(s[j2 - 1])
    ensures j1 == j2
  {
    forall k | j1 <= k < |s| ensures IsWhitespace(s[k]) {
      assert s[j1..][k - j1] == s[k];
    }
    forall k | j2 <= k < |s| ensures IsWhitespace(s[k]) {
      assert s[j2..][k - j2] == s[k];
    }
  }

  /** When the middle part is empty, the whole string is whitespace. */
  lemma WhitespaceAround(s: string, i: int, j: int)
    requires 0 <= i == j <= |s|
    requires AllWhitespace(s[..i]) && AllWhitespace(s[j..])
    ensures AllWhitespace(s)
  {
    forall k | 0 <= k < |s| ensures IsWhitespace(s[k]) {
      if k < i {
        assert s[..i][k] == s[k];
      } else {
        assert s[j..][k - j] == s[k];
      }
    }
  }

  /** Trimming leaves nothing exactly when the string is all whitespace. */
  lemma TrimEmptyIffAllWhitespace(s: string)
    ensures Trim(s) == [] <==> AllWhitespace(s)
  {
    var r := Trim(s);
    var i, j :| TrimCut(r, s, i, j);
    if r == [] {
      EmptyCutIsAllWhitespace(r, s, i, j);
    } else {
      NonEmptyCutIsNotAllWhitespace(r, s, i, j);
    }
  }

  /** Trimming twice is trimming once. */
  lemma TrimIdempotent(s: string)
    ensures Trim(Trim(s)) == Trim(s)
  {
    var r := Trim(s);
    var i, j :| TrimCut(r, s, i, j);
    UntrimmableIsOwnTrim(r);
    TrimOfIsUnique(Trim(r), r, r);
  }

  /** A string with no surrounding whitespace is its own trim. */
  lemma UntrimmableIsOwnTrim(r: string)
    requires NoSurroundingWhitespace(r)
    ensures IsTrimOf(r, r)
  {
    assert r[..0] == [] && r[|r|..] == [] && r[0..|r|] == r;
    assert TrimCut(r, r, 0, |r|);
  }

  /** ASCII `toUpperCase` of one character: a-z become A-Z, the rest stays. */
  function ToUpper(c: char): (u: char)
    ensures 'a' <= c <= 'z' ==> 'A' <= u <= 'Z' && u as int - c as int == 'A' as int - 'a' as int
    ensures !('a' <= c <= 'z') ==> u == c
  {
    if 'a' <= c <= 'z' then (c as int - 'a' as int + 'A' as int) as char else c
  }

  /** `s.charAt(0).toUpperCase() + s.slice(1)`; `charAt(0)` of the empty
      string is the empty string. */
  function Capitalize(s: string): (r: string)
    ensures |r| == |s|
    ensures |s| > 0 ==> r[0] == ToUpper(s[0]) && r[1..] == s[1..]
  {
    if |s| == 0 then "" else [ToUpper(s[0])] + s[1..]
  }

  /** Capitalising twice is capitalising once. */
  lemma CapitalizeIdempotent(s: string)
    ensures Capitalize(Capitalize(s)) == Capitalize(s)
  {
  }
}
