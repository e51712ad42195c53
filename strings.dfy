/** The few Python string operations the handlers rely on. */
module Strings {

  /** Python's `str.isspace()` for one character: the characters that
      `str.strip()` with no argument removes. */
  predicate IsSpace(c: char) {
    || ('\t' <= c <= '\r')
    || ('\U{1C}' <= c <= '\U{1F}')
    || c == ' ' || c == '\U{85}' || c == '\U{A0}' || c == '\U{1680}'
    || ('\U{2000}' <= c <= '\U{200A}')
    || c == '\U{2028}' || c == '\U{2029}' || c == '\U{202F}' || c == '\U{205F}' || c == '\U{3000}'
  }

  predicate AllSpace(s: string) {
    forall i :: 0 <= i < |s| ==> IsSpace(s[i])
  }

  /** No whitespace at either end. */
  predicate IsStripped(s: string) {
    s == [] || (!IsSpace(s[0]) && !IsSpace(s[|s| - 1]))
  }

  /** Python's `s.lstrip()`. */
  function TrimStart(s: string): string {
    if s != [] && IsSpace(s[0]) then TrimStart(s[1..]) else s
  }

  /** Python's `s.rstrip()`. */
  function TrimEnd(s: string): string {
    if s != [] && IsSpace(s[|s| - 1]) then TrimEnd(s[..|s| - 1]) else s
  }

  /** Python's `s.strip()`: `s` without its leading and trailing whitespace
      (StripBounds and StripUnique say what that is). */
  function Strip(s: string): string {
    TrimEnd(TrimStart(s))
  }

  /** lstrip removes a whitespace-only prefix and stops at the first other
      character. */
  lemma {:induction false} TrimStartSpec(s: string)
    ensures |TrimStart(s)| <= |s| && TrimStart(s) == s[|s| - |TrimStart(s)|..]
    ensures AllSpace(s[..|s| - |TrimStart(s)|])
    ensures TrimStart(s) == [] || !IsSpace(TrimStart(s)[0])
  {
    if s != [] && IsSpace(s[0]) {
      var r := TrimStart(s[1..]);
      TrimStartSpec(s[1..]);
      assert s[..|s| - |r|] == [s[0]] + s[1..][..|s| - 1 - |r|];
    }
  }

  /** rstrip removes a whitespace-only suffix and stops at the last other
      character. */
  lemma {:induction false} TrimEndSpec(s: string)
    ensures |TrimEnd(s)| <= |s| && TrimEnd(s) == s[..|TrimEnd(s)|]
    ensures AllSpace(s[|TrimEnd(s)|..])
    ensures TrimEnd(s) == [] || !IsSpace(TrimEnd(s)[|TrimEnd(s)| - 1])
  {
    if s != [] && IsSpace(s[|s| - 1]) {
      var r := TrimEnd(s[..|s| - 1]);
      TrimEndSpec(s[..|s| - 1]);
      assert s[|r|..] == s[..|s| - 1][|r|..] + [s[|s| - 1]];
    }
  }

  /** Every position of `s` outside `[i, j)` holds whitespace. */
  predicate SpaceOutside(s: string, i: nat, j: nat)
    requires i <= j <= |s|
  {
    forall k :: 0 <= k < |s| && (k < i || j <= k) ==> IsSpace(s[k])
  }

  lemma FlanksAreSpace(s: string, i: nat, j: nat)
    requires i <= j <= |s| && AllSpace(s[..i]) && AllSpace(s[j..])
    ensures SpaceOutside(s, i, j)
  {
    forall k | 0 <= k < |s| && (k < i || j <= k) ensures IsSpace(s[k]) {
      if k < i { assert s[..i][k] == s[k]; } else { assert s[j..][k - j] == s[k]; }
    }
  }

  /** The ends of a non-empty stripped infix are not whitespace. */
  lemma InfixEnds(s: string, i: nat, j: nat)
    requires i < j <= |s| && IsStripped(s[i..j])
    ensures !IsSpace(s[i]) && !IsSpace(s[j - 1])
  {
    assert s[i..j][0] == s[i] && s[i..j][j - i - 1] == s[j - 1];
  }

  /** Two stripped infixes of `s` with whitespace outside them coincide. */
  lemma InfixBoundsUnique(s: string, i: nat, j: nat, a: nat, b: nat)
    requires i <= j <= |s| && a <= b <= |s|
    requires IsStripped(s[i..j]) && SpaceOutside(s, i, j)
    requires IsStripped(s[a..b]) && SpaceOutside(s, a, b)
    ensures s[i..j] == s[a..b]
  {
    if i < j && a < b {
      InfixEnds(s, i, j);
      InfixEnds(s, a, b);
      assert a == i && b == j;
    } else if i < j {
      InfixEnds(s, i, j);
    } else if a < b {
      InfixEnds(s, a, b);
    }
  }

  /** Where the result of Strip sits inside its argument: a stripped infix
      with whitespace only outside it. */
  lemma StripBounds(s: string) returns (a: nat, b: nat)
    ensures a <= b <= |s| && Strip(s) == s[a..b]
    ensures IsStripped(s[a..b]) && SpaceOutside(s, a, b)
  {
    var t := TrimStart(s);
    var r := TrimEnd(t);
    TrimStartSpec(s);
    TrimEndSpec(t);
    a := |s| - |t|;
    b := a + |r|;
    assert r == s[a..b];
    assert s[b..] == t[|r|..];
    FlanksAreSpace(s, a, b);
  }

  /** A stripped infix with only whitespace outside it is the result of Strip. */
  lemma StripUnique(s: string, i: nat, j: nat)
    requires i <= j <= |s|
    requires IsStripped(s[i..j]) && SpaceOutside(s, i, j)
    ensures Strip(s) == s[i..j]
  {
    var a, b := StripBounds(s);
    InfixBoundsUnique(s, i, j, a, b);
  }

  /** Stripping a stripped string changes nothing; in particular Strip is idempotent. */
  lemma StrippedIsFixed(s: string)
    requires IsStripped(s)
    ensures Strip(s) == s
  {
    assert s[0..|s|] == s;
    StripUnique(s, 0, |s|);
  }

  lemma SliceOfConcat(pre: string, s: string, post: string, a: nat, b: nat)
    requires a <= b <= |s|
    ensures (pre + s + post)[|pre| + a..|pre| + b] == s[a..b]
  {
  }

  lemma PaddedSpaceOutside(pre: string, s: string, post: string, a: nat, b: nat)
    requires a <= b <= |s| && SpaceOutside(s, a, b) && AllSpace(pre) && AllSpace(post)
    ensures SpaceOutside(pre + s + post, |pre| + a, |pre| + b)
  {
    var t := pre + s + post;
    forall k | 0 <= k < |t| && (k < |pre| + a || |pre| + b <= k) ensures IsSpace(t[k]) {
      if k < |pre| {
        assert t[k] == pre[k];
      } else if k < |pre| + |s| {
        assert t[k] == s[k - |pre|];
      } else {
        assert t[k] == post[k - |pre| - |s|];
      }
    }
  }

  lemma PaddedStrip(pre: string, s: string, post: string, a: nat, b: nat)
    requires a <= b <= |s| && IsStripped(s[a..b]) && SpaceOutside(s, a, b)
    requires AllSpace(pre) && AllSpace(post)
    ensures Strip(pre + s + post) == s[a..b]
  {
    SliceOfConcat(pre, s, post, a, b);
    PaddedSpaceOutside(pre, s, post, a, b);
    StripUnique(pre + s + post, |pre| + a, |pre| + b);
  }

  /** Whitespace added around a string does not change what it strips to. */
  lemma StripIgnoresPadding(pre: string, s: string, post: string)
    requires AllSpace(pre) && AllSpace(post)
    ensures Strip(pre + s + post) == Strip(s)
  {
    var a, b := StripBounds(s);
    PaddedStrip(pre, s, post, a, b);
  }

  predicate EndsWith(s: string, suffix: string) {
    |suffix| <= |s| && s[|s| - |suffix|..] == suffix
  }

  predicate IsDigit(c: char) {
    '0' <= c <= '9'
  }

  /** Python's `str(n)` for a natural number. */
  function NatToDecimal(n: nat): (r: string)
    ensures r != [] && forall k :: 0 <= k < |r| ==> IsDigit(r[k])
  {
    (if n < 10 then "" else NatToDecimal(n / 10)) + ["0123456789"[n % 10]]
  }

  /** Python's `str(n)` for an integer: never empty and never padded, so it is
      its own strip. */
  function IntToDecimal(n: int): (r: string)
    ensures r != [] && IsStripped(r)
    ensures r[|r| - 1] != '-' && (r[0] == '-' <==> n < 0)
  {
    if n < 0 then "-" + NatToDecimal(-n) else NatToDecimal(n)
  }
}
