/**
 * `String.prototype.trim` as the input box uses it: strip every leading and
 * every trailing white-space or line-terminator character (the sets named
 * WhiteSpace and LineTerminator in sections 12.2 and 12.3 of ECMA-262).
 */
module Text {

  /** WhiteSpace (TAB, VT, FF, SP, NBSP, ZWNBSP and the Zs category) or LineTerminator (LF, CR, LS, PS). */
  predicate IsWhitespace(c: char)
  {
    || c == '\t' || c == '\n' || c == '\U{000B}' || c == '\U{000C}' || c == '\r' || c == ' '
    || c == '\U{00A0}' || c == '\U{1680}' || ('\U{2000}' <= c <= '\U{200A}')
    || c == '\U{2028}' || c == '\U{2029}' || c == '\U{202F}' || c == '\U{205F}'
    || c == '\U{3000}' || c == '\U{FEFF}'
  }

  /** Every character of `s` at a position in [lo, hi) is white space. */
  predicate WhitespaceIn(s: string, lo: nat, hi: nat)
    requires lo <= hi <= |s|
  {
    forall i :: lo <= i < hi ==> IsWhitespace(s[i])
  }

  predicate AllWhitespace(s: string)
  {
    WhitespaceIn(s, 0, |s|)
  }

  /** Drops the leading white space: what is left is a suffix of `s` that does not start with white space. */
  function TrimStart(s: string): (r: string)
    ensures |r| <= |s| && r == s[|s| - |r|..]
    ensures WhitespaceIn(s, 0, |s| - |r|)
    ensures r == [] || !IsWhitespace(r[0])
  {
    if s != [] && IsWhitespace(s[0]) then TrimStart(s[1..]) else s
  }

  /** Drops the trailing white space: what is left is a prefix of `s` that does not end with white space. */
  function TrimEnd(s: string): (r: string)
    ensures |r| <= |s| && r == s[..|r|]
    ensures WhitespaceIn(s, |r|, |s|)
    ensures r == [] || !IsWhitespace(r[|r| - 1])
  {
    if s != [] && IsWhitespace(s[|s| - 1]) then TrimEnd(s[..|s| - 1]) else s
  }

  /**
   * `r` is what trimming `s` must give when it starts at offset `k`: the slice
   * of `s` from `k` with only white space around it, empty or beginning and
   * ending with a non-white-space character.
   */
  ghost predicate IsTrimAt(s: string, k: nat, r: string)
  {
    && k + |r| <= |s|
    && r == s[k..k + |r|]
    && WhitespaceIn(s, 0, k)
    && WhitespaceIn(s, k + |r|, |s|)
    && (r == [] || (!IsWhitespace(r[0]) && !IsWhitespace(r[|r| - 1])))
  }

  ghost predicate IsTrimOf(s: string, r: string)
  {
    exists k: nat :: IsTrimAt(s, k, r)
  }

  function Trim(s: string): (r: string)
    ensures IsTrimOf(s, r)
    ensures r == [] <==> AllWhitespace(s)
  {
    var t := TrimStart(s);
    var r := TrimEnd(t);
    var k := |s| - |t|;
    assert r == s[k..k + |r|] by {
      assert t == s[k..] && r == t[..|r|];
    }
    WhitespaceShift(s, k, |r|, |t|);
    assert IsTrimAt(s, k, r);
    TrimAtEmpty(s, k, r);
    r
  }

  lemma WhitespaceShift(s: string, k: nat, lo: nat, hi: nat)
    requires k <= |s| && lo <= hi <= |s| - k && WhitespaceIn(s[k..], lo, hi)
    ensures WhitespaceIn(s, k + lo, k + hi)
  {
    forall i | k + lo <= i < k + hi ensures IsWhitespace(s[i]) {
      assert s[i] == s[k..][i - k];
    }
  }

  /** A trim at any offset is empty exactly when the whole string is white space. */
  lemma TrimAtEmpty(s: string, k: nat, r: string)
    requires IsTrimAt(s, k, r)
    ensures r == [] <==> AllWhitespace(s)
  {
    if r != [] {
      assert s[k] == r[0];
    }
  }

  /** Only white space before `k` and none at `k`: `k` is the first non-white-space position. */
  lemma FirstNonWhitespace(s: string, k: nat, k': nat)
    requires k < |s| && WhitespaceIn(s, 0, k) && !IsWhitespace(s[k])
    requires k' < |s| && WhitespaceIn(s, 0, k') && !IsWhitespace(s[k'])
    ensures k == k'
  {
  }

  /** Only white space from `e` on and none just before it: `e` is just after the last non-white-space position. */
  lemma LastNonWhitespace(s: string, e: nat, e': nat)
    requires 0 < e <= |s| && WhitespaceIn(s, e, |s|) && !IsWhitespace(s[e - 1])
    requires 0 < e' <= |s| && WhitespaceIn(s, e', |s|) && !IsWhitespace(s[e' - 1])
    ensures e == e'
  {
  }

  /** Two trims of the same string, at whatever offsets, are equal. */
  lemma TrimAtUnique(s: string, k: nat, r: string, k': nat, t: string)
    requires IsTrimAt(s, k, r) && IsTrimAt(s, k', t)
    ensures r == t
  {
    TrimAtEmpty(s, k, r);
    TrimAtEmpty(s, k', t);
    if r != [] {
      assert r[0] == s[k] && t[0] == s[k'];
      FirstNonWhitespace(s, k, k');
      assert r[|r| - 1] == s[k + |r| - 1] && t[|t| - 1] == s[k' + |t| - 1];
      LastNonWhitespace(s, k + |r|, k' + |t|);
    }
  }

  /** The characterisation IsTrimOf has exactly one solution, so it defines trimming. */
  lemma TrimUnique(s: string, r: string)
    requires IsTrimOf(s, r)
    ensures r == Trim(s)
  {
    var t := Trim(s);
    var k: nat :| IsTrimAt(s, k, r);
    var k': nat :| IsTrimAt(s, k', t);
    TrimAtUnique(s, k, r, k', t);
  }

  /** Trimming an already trimmed string changes nothing. */
  lemma TrimIdempotent(s: string)
    ensures Trim(Trim(s)) == Trim(s)
  {
    var t := Trim(s);
    assert t == t[0..0 + |t|];
    assert IsTrimAt(t, 0, t);
    TrimUnique(t, t);
  }
}
