/**
 * The few pieces of Go's `strings` and `unicode` packages the loader relies on,
 * over strings seen as sequences of runes.
 */
module Text {

  /** `unicode.IsSpace`: the Latin-1 spaces plus Unicode's White_Space property. */
  predicate IsSpace(c: char)
  {
    c == '\t' || c == '\n' || c == '\U{B}' || c == '\U{C}' || c == '\r' || c == ' ' ||
    c == '\U{85}' || c == '\U{A0}' || c == '\U{1680}' ||
    ('\U{2000}' <= c <= '\U{200A}') ||
    c == '\U{2028}' || c == '\U{2029}' || c == '\U{202F}' || c == '\U{205F}' || c == '\U{3000}'
  }

  /** `unicode.IsLetter`, restricted to ASCII. */
  predicate IsLetter(c: char)
  {
    ('A' <= c <= 'Z') || ('a' <= c <= 'z')
  }

  /** `unicode.IsDigit`, restricted to ASCII. */
  predicate IsDigit(c: char)
  {
    '0' <= c <= '9'
  }

  predicate AllSpace(s: string)
  {
    forall i :: 0 <= i < |s| ==> IsSpace(s[i])
  }

  /** A string that `TrimSpace` leaves alone: no white space at either end. */
  predicate Trimmed(s: string)
  {
    s == [] || (!IsSpace(s[0]) && !IsSpace(s[|s| - 1]))
  }

  /** `strings.HasPrefix`. */
  predicate HasPrefix(s: string, prefix: string)
  {
    |prefix| <= |s| && s[..|prefix|] == prefix
  }

  /** `strings.TrimPrefix`: removes one copy of `prefix` if `s` starts with it. */
  function TrimPrefix(s: string, prefix: string): (r: string)
    ensures HasPrefix(s, prefix) ==> s == prefix + r
    ensures !HasPrefix(s, prefix) ==> r == s
  {
    if HasPrefix(s, prefix) then s[|prefix|..] else s
  }

  /** The position of the first character at or after `i` that is not white space, or `|s|`. */
  function SkipSpaces(s: string, i: nat): (r: nat)
    requires i <= |s|
    ensures i <= r <= |s|
    ensures r < |s| ==> !IsSpace(s[r])
    decreases |s| - i
  {
    if i < |s| && IsSpace(s[i]) then SkipSpaces(s, i + 1) else i
  }

  /** Scanning back from `j`, no further than `lo`: the position just past the last character that is not white space. */
  function BackSpaces(s: string, lo: nat, j: nat): (r: nat)
    requires lo <= j <= |s|
    ensures lo <= r <= j
    ensures r > lo ==> !IsSpace(s[r - 1])
    decreases j
  {
    if j > lo && IsSpace(s[j - 1]) then BackSpaces(s, lo, j - 1) else j
  }

  /** Everything `SkipSpaces` passes over is white space. */
  lemma {:induction false} SkipSpacesSkipsSpace(s: string, i: nat)
    requires i <= |s|
    ensures forall k :: i <= k < SkipSpaces(s, i) ==> IsSpace(s[k])
    decreases |s| - i
  {
    if i < |s| && IsSpace(s[i]) {
      SkipSpacesSkipsSpace(s, i + 1);
    }
  }

  /** Everything `BackSpaces` passes over is white space. */
  lemma {:induction false} BackSpacesSkipsSpace(s: string, lo: nat, j: nat)
    requires lo <= j <= |s|
    ensures forall k :: BackSpaces(s, lo, j) <= k < j ==> IsSpace(s[k])
    decreases j
  {
    if j > lo && IsSpace(s[j - 1]) {
      BackSpacesSkipsSpace(s, lo, j - 1);
    }
  }

  /** White space from `i` up to a non-space character (or the end) at `n` is exactly what `SkipSpaces` passes over. */
  lemma {:induction false} SkipSpacesStopsAt(s: string, i: nat, n: nat)
    requires i <= n <= |s|
    requires forall k :: i <= k < n ==> IsSpace(s[k])
    requires n < |s| ==> !IsSpace(s[n])
    ensures SkipSpaces(s, i) == n
    decreases n - i
  {
    if i < n {
      SkipSpacesStopsAt(s, i + 1, n);
    }
  }

  /** White space from `n` back to `j`, after a non-space character (or `lo`), is exactly what `BackSpaces` passes over. */
  lemma {:induction false} BackSpacesStopsAt(s: string, lo: nat, j: nat, n: nat)
    requires lo <= n <= j <= |s|
    requires forall k :: n <= k < j ==> IsSpace(s[k])
    requires n > lo ==> !IsSpace(s[n - 1])
    ensures BackSpaces(s, lo, j) == n
    decreases j - n
  {
    if n < j {
      BackSpacesStopsAt(s, lo, j - 1, n);
    }
  }

  /** `strings.TrimSpace`: removes all leading and trailing white space. */
  function TrimSpace(s: string): (r: string)
    ensures Trimmed(r) && |r| <= |s|
  {
    var a := SkipSpaces(s, 0);
    s[a..BackSpaces(s, a, |s|)]
  }

  /** `TrimSpace` cuts out a middle part of `s` and removes only white space around it. */
  lemma TrimSpaceIsInfix(s: string)
    ensures exists a, b :: 0 <= a <= b <= |s| && TrimSpace(s) == s[a..b] && AllSpace(s[..a]) && AllSpace(s[b..])
  {
    var a := SkipSpaces(s, 0);
    var b := BackSpaces(s, a, |s|);
    SkipSpacesSkipsSpace(s, 0);
    BackSpacesSkipsSpace(s, a, |s|);
    assert AllSpace(s[..a]);
    assert AllSpace(s[b..]);
  }

  /** White space around a trimmed string is exactly what `TrimSpace` removes. */
  lemma TrimSpaceAround(a: string, s: string, b: string)
    requires AllSpace(a) && AllSpace(b) && Trimmed(s)
    ensures TrimSpace(a + s + b) == s
  {
    var t := a + s + b;
    if s == [] {
      SkipSpacesStopsAt(t, 0, |t|);
      assert t[|t|..|t|] == s;
    } else {
      SkipSpacesStopsAt(t, 0, |a|);
      BackSpacesStopsAt(t, |a|, |t|, |a| + |s|);
      assert t[|a|..|a| + |s|] == s;
    }
  }

  /** A string with no white space at either end is its own trimmed form. */
  lemma TrimSpaceTrimmed(s: string)
    requires Trimmed(s)
    ensures TrimSpace(s) == s
  {
    assert [] + s + [] == s;
    TrimSpaceAround([], s, []);
  }

  /** A one-character prefix is a test of the first character. */
  lemma HasPrefixChar(s: string, c: char)
    requires s != []
    ensures HasPrefix(s, [c]) <==> s[0] == c
  {
    assert s[..1][0] == s[0];
  }
}
