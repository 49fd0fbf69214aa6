/**
 * The Python `str` methods the client uses, written out character by
 * character: `strip()`, `replace(old, "")` and `upper()`.
 */
module PyText {

  /** The characters for which Python's `str.isspace()` holds. */
  predicate IsSpace(c: char)
  {
    || ('\U{9}' <= c <= '\U{D}') || ('\U{1C}' <= c <= '\U{20}')
    || c == '\U{85}' || c == '\U{A0}' || c == '\U{1680}'
    || ('\U{2000}' <= c <= '\U{200A}') || c == '\U{2028}' || c == '\U{2029}'
    || c == '\U{202F}' || c == '\U{205F}' || c == '\U{3000}'
  }

  /** `s.rstrip()`: drop trailing whitespace. */
  function RStripSpace(s: string): (r: string)
    ensures |r| <= |s| && r == s[..|r|]
    ensures r == [] || !IsSpace(r[|r| - 1])
    ensures forall i :: |r| <= i < |s| ==> IsSpace(s[i])
  {
    if s != [] && IsSpace(s[|s| - 1]) then RStripSpace(s[..|s| - 1]) else s
  }

  /** `s.lstrip()`: drop leading whitespace. */
  function LStripSpace(s: string): (r: string)
    ensures |r| <= |s| && r == s[|s| - |r|..]
    ensures r == [] || !IsSpace(r[0])
    ensures forall i :: 0 <= i < |s| - |r| ==> IsSpace(s[i])
  {
    if s != [] && IsSpace(s[0]) then
      var r := LStripSpace(s[1..]);
      assert forall i :: 1 <= i < |s| ==> s[i] == s[1..][i - 1];
      r
    else s
  }

  /** `r` is the slice of `s` that starts at index `k`. */
  predicate SliceAt(s: string, r: string, k: int)
  {
    0 <= k && k + |r| <= |s| && s[k..k + |r|] == r
  }

  /** Everything outside the slice of `s` at `k` of length `n` is whitespace. */
  predicate SpaceAround(s: string, k: nat, n: nat)
    requires k + n <= |s|
  {
    (forall i :: 0 <= i < k ==> IsSpace(s[i])) && (forall i :: k + n <= i < |s| ==> IsSpace(s[i]))
  }

  /** `s.strip()`: drop surrounding whitespace. */
  function Strip(s: string): (r: string)
    ensures r == [] || (!IsSpace(r[0]) && !IsSpace(r[|r| - 1]))
    ensures exists k :: SliceAt(s, r, k)
  {
    var l := LStripSpace(s);
    var r := RStripSpace(l);
    assert SliceAt(s, r, |s| - |l|);
    r
  }

  /** `strip()` drops whitespace only: what lies outside the kept slice is all whitespace. */
  lemma StripDropsOnlySpace(s: string)
    ensures exists k :: SliceAt(s, Strip(s), k) && SpaceAround(s, k, |Strip(s)|)
  {
    var l := LStripSpace(s);
    var r := RStripSpace(l);
    var k := |s| - |l|;
    assert r == Strip(s);
    assert SliceAt(s, r, k);
    assert l == s[k..];
    forall i | k + |r| <= i < |s|
      ensures IsSpace(s[i])
    {
      assert IsSpace(l[i - k]);
    }
    assert SpaceAround(s, k, |r|);
  }

  /** Whitespace in front does not change what `lstrip()` keeps. */
  lemma {:induction false} LStripAfterSpace(w: string, x: string)
    requires forall i :: 0 <= i < |w| ==> IsSpace(w[i])
    ensures LStripSpace(w + x) == LStripSpace(x)
    decreases |w|
  {
    if w != [] {
      assert (w + x)[0] == w[0];
      assert (w + x)[1..] == w[1..] + x;
      LStripAfterSpace(w[1..], x);
    } else {
      assert w + x == x;
    }
  }

  /** Whitespace behind does not change what `rstrip()` keeps. */
  lemma {:induction false} RStripBeforeSpace(x: string, w: string)
    requires forall i :: 0 <= i < |w| ==> IsSpace(w[i])
    ensures RStripSpace(x + w) == RStripSpace(x)
    decreases |w|
  {
    if w != [] {
      assert (x + w)[|x + w| - 1] == w[|w| - 1];
      assert (x + w)[..|x + w| - 1] == x + w[..|w| - 1];
      RStripBeforeSpace(x, w[..|w| - 1]);
    } else {
      assert x + w == x;
    }
  }

  /** `strip()` of `t` padded with whitespace on both sides is `t`, when `t` has no surrounding whitespace. */
  lemma StripPadded(w1: string, t: string, w2: string)
    requires forall i :: 0 <= i < |w1| ==> IsSpace(w1[i])
    requires forall i :: 0 <= i < |w2| ==> IsSpace(w2[i])
    requires t == [] || (!IsSpace(t[0]) && !IsSpace(t[|t| - 1]))
    ensures Strip(w1 + t + w2) == t
  {
    assert w1 + t + w2 == w1 + (t + w2);
    LStripAfterSpace(w1, t + w2);
    if t == [] {
      assert t + w2 == [] + w2;
      LStripAfterSpace(w2, []);
      assert w2 + [] == w2;
    } else {
      assert (t + w2)[0] == t[0];
    }
    RStripBeforeSpace(t, w2);
  }

  /** A string without surrounding whitespace is left alone by `strip()`. */
  lemma StripUnpadded(s: string)
    requires s == [] || (!IsSpace(s[0]) && !IsSpace(s[|s| - 1]))
    ensures Strip(s) == s
  {
  }

  /** `pat in s`: `pat` occurs somewhere in `s`. */
  predicate Contains(s: string, pat: string)
    decreases |s|
  {
    |pat| <= |s| && (s[..|pat|] == pat || Contains(s[1..], pat))
  }

  /**
   * `s.replace(pat, "")`: scan left to right and remove every
   * non-overlapping occurrence of `pat`.
   */
  function RemoveAll(s: string, pat: string): (r: string)
    requires pat != []
    ensures |r| <= |s|
    decreases |s|
  {
    if |s| < |pat| then s
    else if s[..|pat|] == pat then RemoveAll(s[|pat|..], pat)
    else [s[0]] + RemoveAll(s[1..], pat)
  }

  /** Removing a pattern that does not occur changes nothing. */
  lemma {:induction false} RemoveAllAbsent(s: string, pat: string)
    requires pat != []
    requires !Contains(s, pat)
    ensures RemoveAll(s, pat) == s
    decreases |s|
  {
    if |pat| <= |s| {
      RemoveAllAbsent(s[1..], pat);
      assert s == [s[0]] + s[1..];
    }
  }

  /** A leading occurrence is removed and the scan resumes right after it. */
  lemma RemoveAllPrefix(pat: string, s: string)
    requires pat != []
    ensures RemoveAll(pat + s, pat) == RemoveAll(s, pat)
  {
    assert (pat + s)[..|pat|] == pat;
    assert (pat + s)[|pat|..] == s;
  }

  /** A string shorter than the pattern is left alone. */
  lemma RemoveAllShort(s: string, pat: string)
    requires pat != [] && |s| < |pat|
    ensures RemoveAll(s, pat) == s
  {
  }

  /** Where no occurrence starts, the head character is kept and the scan moves on by one. */
  lemma RemoveAllSkip(s: string, pat: string)
    requires pat != [] && |pat| <= |s| && s[..|pat|] != pat
    ensures RemoveAll(s, pat) == [s[0]] + RemoveAll(s[1..], pat)
  {
  }

  /** A run of characters none of which starts the pattern is kept as it is. */
  lemma {:induction false} RemoveAllKeepsHead(u: string, rest: string, pat: string)
    requires pat != []
    requires forall i :: 0 <= i < |u| ==> u[i] != pat[0]
    ensures RemoveAll(u + rest, pat) == u + RemoveAll(rest, pat)
    decreases |u|
  {
    if u != [] {
      var s := u + rest;
      if |pat| <= |s| {
        assert s[..|pat|][0] == u[0];
        assert s[1..] == u[1..] + rest;
        RemoveAllKeepsHead(u[1..], rest, pat);
        calc {
          RemoveAll(s, pat);
          [u[0]] + RemoveAll(u[1..] + rest, pat);
          [u[0]] + (u[1..] + RemoveAll(rest, pat));
          ([u[0]] + u[1..]) + RemoveAll(rest, pat);
          { assert [u[0]] + u[1..] == u; }
          u + RemoveAll(rest, pat);
        }
      } else {
        RemoveAllShort(rest, pat);
      }
    } else {
      assert u + rest == rest;
    }
  }

  /** A position where `s` and `pat` differ rules out an occurrence at the head of `s`. */
  lemma NotPrefixAt(s: string, pat: string, i: nat)
    requires |pat| <= |s| && i < |pat| && s[i] != pat[i]
    ensures s[..|pat|] != pat
  {
    assert s[..|pat|][i] == s[i];
  }

  /**
   * One occurrence of `pat` after a run that cannot start it is removed,
   * and nothing else is when the rest holds no occurrence.
   */
  lemma RemoveAllOnce(w1: string, pat: string, t: string, w2: string)
    requires pat != []
    requires forall i :: 0 <= i < |w1| ==> w1[i] != pat[0]
    requires !Contains(t + w2, pat)
    ensures RemoveAll(w1 + pat + t + w2, pat) == w1 + t + w2
  {
    var rest := t + w2;
    assert w1 + pat + t + w2 == w1 + (pat + rest);
    assert w1 + rest == w1 + t + w2;
    calc {
      RemoveAll(w1 + (pat + rest), pat);
      { RemoveAllKeepsHead(w1, pat + rest, pat); }
      w1 + RemoveAll(pat + rest, pat);
      { RemoveAllPrefix(pat, rest); }
      w1 + RemoveAll(rest, pat);
      { RemoveAllAbsent(rest, pat); }
      w1 + rest;
    }
  }

  function UpperChar(c: char): (u: char)
    ensures !('a' <= u <= 'z')
    ensures !('a' <= c <= 'z') ==> u == c
  {
    if 'a' <= c <= 'z' then (c as int - 'a' as int + 'A' as int) as char else c
  }

  /** `s.upper()` restricted to ASCII letters. */
  function Upper(s: string): (r: string)
    ensures |r| == |s|
    ensures forall i :: 0 <= i < |s| ==> r[i] == UpperChar(s[i])
  {
    seq(|s|, i requires 0 <= i < |s| => UpperChar(s[i]))
  }
}
