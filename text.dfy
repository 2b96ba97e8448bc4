/**
 * The operations on Java strings that the chat server relies on: `trim`,
 * `split("\\s+", 2)`, `toLowerCase` and `equalsIgnoreCase`. Case mapping is
 * restricted to the ASCII letters.
 */
module Text {
  import opened Wrappers

  /** `String.trim` strips every leading and trailing character at or below U+0020. */
  predicate IsTrimmable(c: char) {
    c <= ' '
  }

  /** The characters of the regular-expression class `\s`. */
  predicate IsWhitespace(c: char) {
    c == ' ' || c == '\t' || c == '\n' || c == '\U{0B}' || c == '\U{0C}' || c == '\r'
  }

  /** A string that `trim` leaves as it is. */
  predicate IsTrimmed(s: string) {
    s == [] || (!IsTrimmable(s[0]) && !IsTrimmable(s[|s| - 1]))
  }

  predicate AllTrimmable(s: string) {
    forall i :: 0 <= i < |s| ==> IsTrimmable(s[i])
  }

  predicate NoWhitespace(s: string) {
    forall i :: 0 <= i < |s| ==> !IsWhitespace(s[i])
  }

  lemma WhitespaceIsTrimmable(c: char)
    ensures IsWhitespace(c) ==> IsTrimmable(c)
  {
  }

  /** The number of leading characters `trim` strips. */
  function TrimStart(s: string): (k: nat)
    ensures k <= |s|
    ensures forall i :: 0 <= i < k ==> IsTrimmable(s[i])
    ensures k < |s| ==> !IsTrimmable(s[k])
  {
    if s == [] || !IsTrimmable(s[0]) then 0 else 1 + TrimStart(s[1..])
  }

  /** The index just past the last character `trim` keeps. */
  function TrimEnd(s: string): (k: nat)
    ensures k <= |s|
    ensures forall i :: k <= i < |s| ==> IsTrimmable(s[i])
    ensures 0 < k ==> !IsTrimmable(s[k - 1])
  {
    if s == [] || !IsTrimmable(s[|s| - 1]) then |s| else TrimEnd(s[..|s| - 1])
  }

  /** `String.trim`. */
  function Trim(s: string): (r: string)
    ensures IsTrimmed(r)
    ensures |r| <= |s|
  {
    var start := TrimStart(s);
    if start == |s| then "" else s[start..TrimEnd(s)]
  }

  /** `trim` removes exactly the padding around an already trimmed string. */
  lemma TrimPadded(p: string, m: string, q: string)
    requires AllTrimmable(p) && AllTrimmable(q) && IsTrimmed(m)
    ensures Trim(p + m + q) == m
  {
    var s := p + m + q;
    var a, b := TrimStart(s), TrimEnd(s);
    if m == [] {
      assert forall i :: 0 <= i < |s| ==> IsTrimmable(s[i]) by {
        forall i | 0 <= i < |s| ensures IsTrimmable(s[i]) {
          if i < |p| { assert s[i] == p[i]; } else { assert s[i] == q[i - |p|]; }
        }
      }
      assert a == |s|;
    } else {
      assert s[|p|] == m[0];
      assert s[|p| + |m| - 1] == m[|m| - 1];
      assert a == |p|;
      assert b == |p| + |m|;
      assert s[a..b] == m;
    }
  }

  /** A trimmed string is its own `trim`. */
  lemma TrimTrimmed(t: string)
    requires IsTrimmed(t)
    ensures Trim(t) == t
  {
    TrimPadded("", t, "");
    assert "" + t + "" == t;
  }

  /** Every string is its trimmed form with the stripped padding around it. */
  lemma TrimSplits(s: string) returns (p: string, q: string)
    ensures AllTrimmable(p) && AllTrimmable(q) && s == p + Trim(s) + q
  {
    var a := TrimStart(s);
    if a == |s| {
      p, q := s, "";
      assert s + "" + "" == s;
    } else {
      var b := TrimEnd(s);
      assert a < b;
      p, q := s[..a], s[b..];
      assert AllTrimmable(p) && AllTrimmable(q);
      Reassemble(s, a, b);
    }
  }

  lemma Reassemble(s: string, a: nat, b: nat)
    requires a <= b <= |s|
    ensures s == s[..a] + s[a..b] + s[b..]
  {
  }

  /** Adding padding does not change what `trim` returns. */
  lemma TrimIgnoresPadding(p: string, s: string, q: string)
    requires AllTrimmable(p) && AllTrimmable(q)
    ensures Trim(p + s + q) == Trim(s)
  {
    var p', q' := TrimSplits(s);
    var m := Trim(s);
    Regroup(p, p', m, q', q);
    AllTrimmableConcat(p, p');
    AllTrimmableConcat(q', q);
    TrimPadded(p + p', m, q' + q);
  }

  lemma Regroup(a: string, b: string, c: string, d: string, e: string)
    ensures a + (b + c + d) + e == (a + b) + c + (d + e)
  {
  }

  lemma AllTrimmableConcat(a: string, b: string)
    requires AllTrimmable(a) && AllTrimmable(b)
    ensures AllTrimmable(a + b)
  {
    forall i | 0 <= i < |a + b| ensures IsTrimmable((a + b)[i]) {
      if i < |a| { assert (a + b)[i] == a[i]; } else { assert (a + b)[i] == b[i - |a|]; }
    }
  }

  /** The index of the first `\s` character at or after `from`, or |s| when there is none. */
  function FirstWhitespace(s: string, from: nat): (k: nat)
    requires from <= |s|
    ensures from <= k <= |s|
    ensures forall i :: from <= i < k ==> !IsWhitespace(s[i])
    ensures k < |s| ==> IsWhitespace(s[k])
    decreases |s| - from
  {
    if from == |s| || IsWhitespace(s[from]) then from else FirstWhitespace(s, from + 1)
  }

  /** The end of the run of `\s` characters that starts at `from`. */
  function EndOfWhitespace(s: string, from: nat): (k: nat)
    requires from <= |s|
    ensures from <= k <= |s|
    ensures forall i :: from <= i < k ==> IsWhitespace(s[i])
    ensures k < |s| ==> !IsWhitespace(s[k])
    decreases |s| - from
  {
    if from == |s| || !IsWhitespace(s[from]) then from else EndOfWhitespace(s, from + 1)
  }

  /**
   * `s.split("\\s+", 2)`: the text before the first run of `\s` characters
   * and, when there is such a run, the text after it.
   */
  function SplitOnce(s: string): (r: (string, Option<string>))
    ensures NoWhitespace(r.0)
    ensures r.1.None? ==> r.0 == s
    ensures r.1.Some? ==>
      && |r.0| + |r.1.value| < |s|
      && s[..|r.0|] == r.0
      && s[|s| - |r.1.value|..] == r.1.value
      && (forall i :: |r.0| <= i < |s| - |r.1.value| ==> IsWhitespace(s[i]))
      && (r.1.value == [] || !IsWhitespace(r.1.value[0]))
  {
    var i := FirstWhitespace(s, 0);
    if i == |s| then (s, None) else (s[..i], Some(s[EndOfWhitespace(s, i)..]))
  }

  function LowerChar(c: char): char {
    if 'A' <= c <= 'Z' then (c as int + 32) as char else c
  }

  function UpperChar(c: char): char {
    if 'a' <= c <= 'z' then (c as int - 32) as char else c
  }

  predicate IsLowerCase(s: string) {
    forall i :: 0 <= i < |s| ==> !('A' <= s[i] <= 'Z')
  }

  /** `String.toLowerCase`. */
  function Lower(s: string): (r: string)
    ensures |r| == |s| && IsLowerCase(r)
  {
    seq(|s|, i requires 0 <= i < |s| => LowerChar(s[i]))
  }

  /** Lower-casing changes nothing in a string that is already lower-case. */
  lemma LowerOfLowerCase(s: string)
    requires IsLowerCase(s)
    ensures Lower(s) == s
  {
  }

  /** The per-character test of `String.equalsIgnoreCase`. */
  predicate SameIgnoringCase(c: char, d: char) {
    c == d || UpperChar(c) == UpperChar(d) || LowerChar(c) == LowerChar(d)
  }

  /** `String.equalsIgnoreCase`. */
  predicate EqualsIgnoreCase(a: string, b: string) {
    |a| == |b| && forall i :: 0 <= i < |a| ==> SameIgnoringCase(a[i], b[i])
  }

  lemma SameIgnoringCaseIsLowerEquality(c: char, d: char)
    ensures SameIgnoringCase(c, d) <==> LowerChar(c) == LowerChar(d)
  {
  }

  /** Two strings are equal ignoring case exactly when their lower-case forms are equal. */
  lemma EqualsIgnoreCaseIsLowerEquality(a: string, b: string)
    ensures EqualsIgnoreCase(a, b) <==> Lower(a) == Lower(b)
  {
    if EqualsIgnoreCase(a, b) {
      forall i | 0 <= i < |a| ensures Lower(a)[i] == Lower(b)[i] {
        SameIgnoringCaseIsLowerEquality(a[i], b[i]);
      }
    }
    if Lower(a) == Lower(b) {
      forall i | 0 <= i < |a| ensures SameIgnoringCase(a[i], b[i]) {
        assert Lower(a)[i] == Lower(b)[i];
        SameIgnoringCaseIsLowerEquality(a[i], b[i]);
      }
    }
  }
}
