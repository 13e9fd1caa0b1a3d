/**
 * The few string routines of Go's `strings` package the core relies on,
 * over Dafny strings (sequences of Unicode scalar values).
 */
module Text {

  /** Go's `unicode.IsSpace`: the Latin-1 spaces and the Unicode White_Space code points. */
  predicate IsSpace(c: char) {
    || c == '\t' || c == '\n' || c == '\U{000B}' || c == '\U{000C}' || c == '\r' || c == ' '
    || c == '\U{0085}' || c == '\U{00A0}' || c == '\U{1680}'
    || ('\U{2000}' <= c <= '\U{200A}')
    || c == '\U{2028}' || c == '\U{2029}' || c == '\U{202F}' || c == '\U{205F}' || c == '\U{3000}'
  }

  /** Neither end of `s` is white space. */
  predicate Trimmed(s: string) {
    s == [] || (!IsSpace(s[0]) && !IsSpace(s[|s| - 1]))
  }

  /** `s` without its leading white space. */
  function TrimLeft(s: string): (r: string)
    ensures |r| <= |s| && r == s[|s| - |r|..]
    ensures r == [] || !IsSpace(r[0])
    ensures forall i | 0 <= i < |s| - |r| :: IsSpace(s[i])
  {
    if s != [] && IsSpace(s[0]) then TrimLeft(s[1..]) else s
  }

  /** `s` without its trailing white space. */
  function TrimRight(s: string): (r: string)
    ensures |r| <= |s| && r == s[..|r|]
    ensures r == [] || !IsSpace(r[|r| - 1])
    ensures forall i | |r| <= i < |s| :: IsSpace(s[i])
  {
    if s != [] && IsSpace(s[|s| - 1]) then TrimRight(s[..|s| - 1]) else s
  }

  /** Go's `strings.TrimSpace`: the result has no white space at either end,
      and a string that has none there is returned as it is. */
  function TrimSpace(s: string): (r: string)
    ensures Trimmed(r)
    ensures Trimmed(s) ==> r == s
    ensures |r| <= |s|
  {
    TrimRight(TrimLeft(s))
  }

  /** `TrimSpace` removes white space only: its result is the infix of `s`
      that starts after the leading white space, and everything after that
      infix is white space too. With `Trimmed(TrimSpace(s))` this pins the
      result down. */
  lemma TrimSpaceInfix(s: string)
    ensures |s| - |TrimLeft(s)| + |TrimSpace(s)| <= |s|
    ensures TrimSpace(s) == s[|s| - |TrimLeft(s)|..|s| - |TrimLeft(s)| + |TrimSpace(s)|]
    ensures forall i | 0 <= i < |s| - |TrimLeft(s)| :: IsSpace(s[i])
    ensures forall i | |s| - |TrimLeft(s)| + |TrimSpace(s)| <= i < |s| :: IsSpace(s[i])
  {
    TrimSpaceIsInfix(s);
    TrimSpaceTrailing(s);
  }

  /** The result of `TrimSpace` is the infix of `s` after its leading white space. */
  lemma TrimSpaceIsInfix(s: string)
    ensures |s| - |TrimLeft(s)| + |TrimSpace(s)| <= |s|
    ensures TrimSpace(s) == s[|s| - |TrimLeft(s)|..|s| - |TrimLeft(s)| + |TrimSpace(s)|]
  {
    PrefixOfSuffix(s, TrimLeft(s), TrimSpace(s));
  }

  /** Everything in `s` after that infix is white space. */
  lemma TrimSpaceTrailing(s: string)
    ensures |s| - |TrimLeft(s)| + |TrimSpace(s)| <= |s|
    ensures forall i | |s| - |TrimLeft(s)| + |TrimSpace(s)| <= i < |s| :: IsSpace(s[i])
  {
    SpaceAfterPrefixOfSuffix(s, TrimLeft(s), TrimSpace(s));
  }

  /** A prefix `r` of a suffix `l` of `s` is the infix of `s` where `l` starts. */
  lemma PrefixOfSuffix(s: string, l: string, r: string)
    requires |l| <= |s| && l == s[|s| - |l|..]
    requires |r| <= |l| && r == l[..|r|]
    ensures r == s[|s| - |l|..|s| - |l| + |r|]
  {
    assert s[|s| - |l|..][..|r|] == s[|s| - |l|..|s| - |l| + |r|];
  }

  /** What a suffix `l` of `s` loses past its prefix `r`, all white space,
      is white space in `s` too. */
  lemma SpaceAfterPrefixOfSuffix(s: string, l: string, r: string)
    requires |l| <= |s| && l == s[|s| - |l|..]
    requires |r| <= |l| && forall i | |r| <= i < |l| :: IsSpace(l[i])
    ensures forall i | |s| - |l| + |r| <= i < |s| :: IsSpace(s[i])
  {
    forall i | |s| - |l| + |r| <= i < |s|
      ensures IsSpace(s[i])
    {
      assert s[i] == l[i - (|s| - |l|)];
    }
  }

  /** Go's `strings.HasPrefix`. */
  predicate HasPrefix(s: string, prefix: string) {
    |prefix| <= |s| && s[..|prefix|] == prefix
  }

  /** A string that differs from `prefix` at some position inside both does not start with it. */
  lemma NotPrefixAt(s: string, prefix: string, i: nat)
    requires i < |prefix| && i < |s| && s[i] != prefix[i]
    ensures !HasPrefix(s, prefix)
  {
    if |prefix| <= |s| {
      assert s[..|prefix|][i] == s[i];
    }
  }

  /** ASCII lower-casing of one character; every other character is kept. */
  function LowerChar(c: char): char {
    if 'A' <= c <= 'Z' then (c as int - 'A' as int + 'a' as int) as char else c
  }

  /** Go's `strings.ToLower`, restricted to the ASCII letters. */
  function ToLower(s: string): (r: string)
    ensures |r| == |s|
  {
    seq(|s|, i requires 0 <= i < |s| => LowerChar(s[i]))
  }

  /** Lower-casing twice is lower-casing once. */
  lemma ToLowerIdempotent(s: string)
    ensures ToLower(ToLower(s)) == ToLower(s)
  {
  }
}
