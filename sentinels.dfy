/**
 * The ledger adapter answers in text: an absent secret is the word "null" and a
 * successful receipt verification is the word "true", both compared after
 * `String.trim()` and ignoring letter case. This module models those two checks.
 */
module Sentinels {

  /** `String.trim()` strips every character whose code is at most U+0020. */
  predicate IsTrimmable(c: char) {
    c <= ' '
  }

  /** Strips the leading trimmable characters. */
  function TrimStart(s: string): string {
    if s != [] && IsTrimmable(s[0]) then TrimStart(s[1..]) else s
  }

  /** Strips the trailing trimmable characters. */
  function TrimEnd(s: string): string {
    if s != [] && IsTrimmable(s[|s| - 1]) then TrimEnd(s[..|s| - 1]) else s
  }

  /**
   * Java's `String.trim()`: cut the trimmable characters from the front, then from
   * the back.
   */
  function Trim(s: string): string {
    TrimEnd(TrimStart(s))
  }

  /** `TrimStart` keeps a suffix, cuts only trimmable characters and stops at the first one that is not. */
  lemma {:induction false} TrimStartIsSuffix(s: string)
    ensures |TrimStart(s)| <= |s| && TrimStart(s) == s[|s| - |TrimStart(s)|..]
    ensures forall k | 0 <= k < |s| - |TrimStart(s)| :: IsTrimmable(s[k])
    ensures TrimStart(s) == [] || !IsTrimmable(TrimStart(s)[0])
  {
    if s != [] && IsTrimmable(s[0]) {
      var t := s[1..];
      TrimStartIsSuffix(t);
      var r := TrimStart(t);
      assert TrimStart(s) == r;
      assert t[|t| - |r|..] == s[|s| - |r|..];
      forall k | 0 <= k < |s| - |r|
        ensures IsTrimmable(s[k])
      {
        if k > 0 {
          assert s[k] == t[k - 1];
        }
      }
    }
  }

  /** `TrimEnd` keeps a prefix, cuts only trimmable characters and stops at the last one that is not. */
  lemma {:induction false} TrimEndIsPrefix(s: string)
    ensures |TrimEnd(s)| <= |s| && TrimEnd(s) == s[..|TrimEnd(s)|]
    ensures forall k | |TrimEnd(s)| <= k < |s| :: IsTrimmable(s[k])
    ensures TrimEnd(s) == [] || !IsTrimmable(TrimEnd(s)[|TrimEnd(s)| - 1])
  {
    if s != [] && IsTrimmable(s[|s| - 1]) {
      var t := s[..|s| - 1];
      TrimEndIsPrefix(t);
      var r := TrimEnd(t);
      assert TrimEnd(s) == r;
      assert t[..|r|] == s[..|r|];
      forall k | |r| <= k < |s|
        ensures IsTrimmable(s[k])
      {
        if k < |s| - 1 {
          assert s[k] == t[k];
        }
      }
    }
  }

  /** What `Trim` cuts away on either side is trimmable, and what it keeps neither starts nor ends so. */
  lemma TrimIsInfix(s: string) returns (i: nat, j: nat)
    ensures i <= j <= |s| && Trim(s) == s[i..j]
    ensures forall k | 0 <= k < i :: IsTrimmable(s[k])
    ensures forall k | j <= k < |s| :: IsTrimmable(s[k])
    ensures Trim(s) == [] || (!IsTrimmable(Trim(s)[0]) && !IsTrimmable(Trim(s)[|Trim(s)| - 1]))
  {
    var u := TrimStart(s);
    TrimStartIsSuffix(s);
    var t := TrimEnd(u);
    TrimEndIsPrefix(u);
    i, j := |s| - |u|, |s| - |u| + |t|;
    assert t == s[i..j];
  }

  /** Folds the ASCII capitals onto the lower-case letters and leaves every other character alone. */
  function ToLowerAscii(c: char): char {
    if 'A' <= c <= 'Z' then (c as int + 32) as char else c
  }

  /** `String.equalsIgnoreCase`, with case folding limited to ASCII letters. */
  predicate EqualsIgnoreCase(a: string, b: string) {
    if a == [] || b == [] then a == b
    else ToLowerAscii(a[0]) == ToLowerAscii(b[0]) && EqualsIgnoreCase(a[1..], b[1..])
  }

  /** Two texts are equal ignoring case when they have the same length and agree at every position after folding. */
  lemma {:induction false} EqualsIgnoreCaseAt(a: string, b: string)
    ensures EqualsIgnoreCase(a, b) <==> |a| == |b| && forall i | 0 <= i < |a| :: ToLowerAscii(a[i]) == ToLowerAscii(b[i])
  {
    if a != [] && b != [] {
      EqualsIgnoreCaseAt(a[1..], b[1..]);
      if |a| == |b| && forall i | 0 <= i < |a| :: ToLowerAscii(a[i]) == ToLowerAscii(b[i]) {
        assert forall i | 0 <= i < |a| - 1 :: a[1..][i] == a[i + 1] && b[1..][i] == b[i + 1];
      }
    }
  }

  /** `s.trim().equalsIgnoreCase("null")`: the adapter's way of saying "no secret yet". */
  predicate IsNullSentinel(s: string) {
    EqualsIgnoreCase(Trim(s), "null")
  }

  /** `s.trim().equalsIgnoreCase("true")`: the adapter's way of saying "receipt verified". */
  predicate IsTrueSentinel(s: string) {
    EqualsIgnoreCase(Trim(s), "true")
  }

  /** `s` is the word `w`, in any letter case, at position `i`, with only trimmable characters around it. */
  predicate PaddedAt(s: string, w: string, i: int) {
    && 0 <= i <= |s| - |w|
    && (forall k | 0 <= k < i :: IsTrimmable(s[k]))
    && EqualsIgnoreCase(s[i..i + |w|], w)
    && (forall k | i + |w| <= k < |s| :: IsTrimmable(s[k]))
  }

  /** `s` is the word `w`, in any letter case, padded only with trimmable characters. */
  predicate PaddedWord(s: string, w: string) {
    exists i | 0 <= i <= |s| :: PaddedAt(s, w, i)
  }

  /** A trimmed text that matches `w` is `w` padded with trimmable characters. */
  lemma TrimmedMatchIsPadded(s: string, w: string)
    requires EqualsIgnoreCase(Trim(s), w)
    ensures PaddedWord(s, w)
  {
    var t := Trim(s);
    var i, j := TrimIsInfix(s);
    EqualsIgnoreCaseAt(t, w);
    assert PaddedAt(s, w, i);
  }

  /**
   * Conversely, when the first and last letters of `w` cannot be trimmed, trimming
   * a padded `w` cuts exactly the padding away.
   */
  lemma PaddedIsTrimmedMatch(s: string, w: string, p: int)
    requires w != []
    requires !IsTrimmable(ToLowerAscii(w[0])) && !IsTrimmable(ToLowerAscii(w[|w| - 1]))
    requires PaddedAt(s, w, p)
    ensures EqualsIgnoreCase(Trim(s), w)
  {
    var t := Trim(s);
    var i, j := TrimIsInfix(s);
    var q := p + |w| - 1;
    EqualsIgnoreCaseAt(s[p..p + |w|], w);
    assert ToLowerAscii(s[p]) == ToLowerAscii(w[0]) by { assert s[p..p + |w|][0] == s[p]; }
    assert ToLowerAscii(s[q]) == ToLowerAscii(w[|w| - 1]) by { assert s[p..p + |w|][|w| - 1] == s[q]; }
    assert !IsTrimmable(s[p]) && !IsTrimmable(s[q]);
    // Neither end of the trimmed infix can lie inside the padding, nor can it cut into the word.
    assert i <= p;
    assert q < j;
    assert p <= i;
    assert j <= q + 1;
    assert t == s[p..p + |w|];
    EqualsIgnoreCaseAt(t, w);
  }

  /**
   * For a word whose first and last letters cannot be trimmed, matching the trimmed
   * text ignoring case is the same as being that word, in any case, with only
   * trimmable padding around it.
   */
  lemma TrimmedMatchIsPaddedWord(s: string, w: string)
    requires w != []
    requires !IsTrimmable(ToLowerAscii(w[0])) && !IsTrimmable(ToLowerAscii(w[|w| - 1]))
    ensures EqualsIgnoreCase(Trim(s), w) <==> PaddedWord(s, w)
  {
    if EqualsIgnoreCase(Trim(s), w) {
      TrimmedMatchIsPadded(s, w);
    }
    if PaddedWord(s, w) {
      var p :| PaddedAt(s, w, p);
      PaddedIsTrimmedMatch(s, w, p);
    }
  }

  /** The absent-secret sentinel is "null" in any letter case with only trimmable padding. */
  lemma NullSentinelShape(s: string)
    ensures IsNullSentinel(s) <==> PaddedWord(s, "null")
  {
    TrimmedMatchIsPaddedWord(s, "null");
  }

  /** The verified sentinel is "true" in any letter case with only trimmable padding. */
  lemma TrueSentinelShape(s: string)
    ensures IsTrueSentinel(s) <==> PaddedWord(s, "true")
  {
    TrimmedMatchIsPaddedWord(s, "true");
  }

  /** The literal the poll starts from, and falls back to, is itself the absent-secret sentinel. */
  lemma NullLiteralIsNullSentinel()
    ensures IsNullSentinel("null") && !IsTrueSentinel("null")
  {
    assert TrimStart("null") == "null";
    assert TrimEnd("null") == "null";
  }

  /** No adapter answer is both "no secret" and "verified". */
  lemma SentinelsDisjoint(s: string)
    ensures !(IsNullSentinel(s) && IsTrueSentinel(s))
  {
    if IsNullSentinel(s) {
      assert ToLowerAscii(Trim(s)[0]) == 'n';
    }
  }
}
