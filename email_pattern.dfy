/**
  The e-mail pattern `^[^\s@]+@[^\s@]+\.[^\s@]+$` used by the newsletter and
  contact routes: a computable test, the regular-expression reading of the
  pattern, and the proof that the two agree on every string.
*/
module EmailPattern {
  import opened Common

  /** A character of the class `[^\s@]`. */
  predicate Plain(c: char) {
    !IsWhitespace(c) && c != '@'
  }

  predicate AllPlain(s: string) {
    forall k :: 0 <= k < |s| ==> Plain(s[k])
  }

  /** The pattern read as a regular expression: the string splits as
      local "@" domain "." suffix, the three parts non-empty and made of `[^\s@]`. */
  ghost predicate MatchesPattern(s: string) {
    exists i, j :: 0 < i && i + 1 < j && j + 1 < |s| && s[i] == '@' && s[j] == '.'
      && AllPlain(s[..i]) && AllPlain(s[i + 1..j]) && AllPlain(s[j + 1..])
  }

  /** What `emailRegex.test(email)` computes: no whitespace anywhere, a non-empty part
      before the first '@', no further '@', and a '.' strictly inside what follows. */
  predicate IsEmailAddress(s: string) {
    && (forall k :: 0 <= k < |s| ==> !IsWhitespace(s[k]))
    && '@' in s
    && var i := FirstIndex(s, '@');
    && 0 < i
    && AllPlain(s[i + 1..])
    && var d := s[i + 1..];
    && |d| >= 3
    && '.' in d[1..|d| - 1]
  }

  predicate PlainBetween(s: string, lo: int, hi: int)
    requires 0 <= lo <= hi <= |s|
  {
    forall k :: lo <= k < hi ==> Plain(s[k])
  }

  lemma AllPlainSlice(s: string, lo: int, hi: int)
    requires 0 <= lo <= hi <= |s|
    ensures AllPlain(s[lo..hi]) <==> PlainBetween(s, lo, hi)
  {
    if PlainBetween(s, lo, hi) {
      forall k | 0 <= k < hi - lo ensures Plain(s[lo..hi][k]) {
        assert s[lo..hi][k] == s[lo + k];
      }
    }
    if AllPlain(s[lo..hi]) {
      forall k | lo <= k < hi ensures Plain(s[k]) {
        assert s[lo..hi][k - lo] == s[k];
      }
    }
  }

  lemma EmailTestImpliesPattern(s: string)
    requires IsEmailAddress(s)
    ensures MatchesPattern(s)
  {
    var i := FirstIndex(s, '@');
    var d := s[i + 1..];
    var m := d[1..|d| - 1];
    var t := FirstIndex(m, '.');
    var j := i + 2 + t;
    assert s[j] == m[t] == '.';
    AllPlainSlice(s, i + 1, |s|);
    assert s[i + 1..] == s[i + 1..|s|];
    AllPlainSlice(s, 0, i);
    AllPlainSlice(s, i + 1, j);
    AllPlainSlice(s, j + 1, |s|);
    assert s[j + 1..] == s[j + 1..|s|];
  }

  lemma PlainParts(s: string, i: int, j: int)
    requires 0 < i && i + 1 < j && j + 1 < |s| && s[i] == '@' && s[j] == '.'
    requires PlainBetween(s, 0, i) && PlainBetween(s, i + 1, j) && PlainBetween(s, j + 1, |s|)
    ensures PlainBetween(s, i + 1, |s|)
    ensures forall k :: 0 <= k < |s| ==> !IsWhitespace(s[k])
  {
    forall k | i + 1 <= k < |s| ensures Plain(s[k]) {
      if k < j {
        assert PlainBetween(s, i + 1, j);
      } else if k > j {
        assert PlainBetween(s, j + 1, |s|);
      }
    }
    forall k | 0 <= k < |s| ensures !IsWhitespace(s[k]) {
      if k < i {
        assert PlainBetween(s, 0, i);
      } else if k > i {
        assert PlainBetween(s, i + 1, |s|);
      }
    }
  }

  lemma FirstAt(s: string, i: int)
    requires 0 <= i < |s| && s[i] == '@' && PlainBetween(s, 0, i)
    ensures FirstIndex(s, '@') == i
  {
  }

  lemma PatternImpliesEmailTest(s: string)
    requires MatchesPattern(s)
    ensures IsEmailAddress(s)
  {
    var i, j :| 0 < i && i + 1 < j && j + 1 < |s| && s[i] == '@' && s[j] == '.'
      && AllPlain(s[..i]) && AllPlain(s[i + 1..j]) && AllPlain(s[j + 1..]);
    AllPlainSlice(s, 0, i);
    assert s[..i] == s[0..i];
    AllPlainSlice(s, i + 1, j);
    AllPlainSlice(s, j + 1, |s|);
    assert s[j + 1..] == s[j + 1..|s|];
    PlainParts(s, i, j);
    AllPlainSlice(s, i + 1, |s|);
    assert s[i + 1..] == s[i + 1..|s|];
    FirstAt(s, i);
    var d := s[i + 1..];
    assert |d| >= 3;
    assert d[1..|d| - 1][j - i - 2] == '.';
  }

  /** The computable test accepts exactly the strings the pattern matches. */
  lemma EmailTestMatchesPattern(s: string)
    ensures IsEmailAddress(s) <==> MatchesPattern(s)
  {
    if IsEmailAddress(s) {
      EmailTestImpliesPattern(s);
    }
    if MatchesPattern(s) {
      PatternImpliesEmailTest(s);
    }
  }

  /** `emailRegex.test(v)` on a request member: a string is tested as it is; every
      other JSON value the routes can receive renders without an '@' and fails. */
  predicate PassesEmailTest(v: JsonValue) {
    v.JString? && IsEmailAddress(v.str)
  }
}
