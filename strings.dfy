/**
 * The parts of Go's `strings` package the query prettifier relies on: replacing
 * every occurrence of a pattern and trimming white space.
 */
module Strings {

  // ----- strings.Replace(s, pat, rep, -1)

  /** `strings.Replace(s, pat, rep, -1)` for a non-empty `pat`: scan from the left and
      replace each non-overlapping occurrence. */
  function ReplaceAll(s: string, pat: string, rep: string): string
    requires |pat| > 0
    decreases |s|
  {
    if |s| < |pat| then s
    else if s[..|pat|] == pat then rep + ReplaceAll(s[|pat|..], pat, rep)
    else [s[0]] + ReplaceAll(s[1..], pat, rep)
  }

  predicate OccursAt(t: string, s: string, k: int) {
    0 <= k && k + |t| <= |s| && s[k..k + |t|] == t
  }

  ghost predicate Occurs(t: string, s: string) {
    exists k :: OccursAt(t, s, k)
  }

  /** `s` with every `c` deleted. */
  function Without(s: string, c: char): (r: string)
    ensures c !in r && |r| <= |s|
  {
    if s == [] then [] else (if s[0] == c then [] else [s[0]]) + Without(s[1..], c)
  }

  /** Replacing a one-character pattern by nothing deletes that character. */
  lemma {:induction false} DeleteChar(s: string, c: char)
    ensures ReplaceAll(s, [c], "") == Without(s, c)
  {
    if s != [] {
      DeleteChar(s[1..], c);
      assert s[..1] == [s[0]] && s[1..] == s[|[c]|..];
    }
  }

  /** Replacing a one-character pattern by one character changes exactly those
      characters and nothing else. */
  lemma {:induction false} ReplaceCharByChar(s: string, c: char, d: char)
    ensures var r := ReplaceAll(s, [c], [d]);
      |r| == |s| && forall i :: 0 <= i < |s| ==> r[i] == if s[i] == c then d else s[i]
  {
    if s != [] {
      ReplaceCharByChar(s[1..], c, d);
      assert s[..1] == [s[0]];
      var r := ReplaceAll(s, [c], [d]);
      assert r == [if s[0] == c then d else s[0]] + ReplaceAll(s[1..], [c], [d]);
    }
  }

  /** A character found neither in the text nor in the replacement is not in the result. */
  lemma {:induction false} ReplaceKeepsAbsent(s: string, pat: string, rep: string, x: char)
    requires |pat| > 0 && x !in s && x !in rep
    ensures x !in ReplaceAll(s, pat, rep)
    decreases |s|
  {
    if |s| >= |pat| {
      if s[..|pat|] == pat {
        ReplaceKeepsAbsent(s[|pat|..], pat, rep, x);
      } else {
        ReplaceKeepsAbsent(s[1..], pat, rep, x);
      }
    }
  }

  /** Text that does not hold the pattern's first character is left as it is. */
  lemma {:induction false} ReplaceAbsent(s: string, pat: string, rep: string)
    requires |pat| > 0 && pat[0] !in s
    ensures ReplaceAll(s, pat, rep) == s
    decreases |s|
  {
    if |s| >= |pat| {
      assert s[..|pat|][0] == s[0];
      ReplaceAbsent(s[1..], pat, rep);
      assert [s[0]] + s[1..] == s;
    }
  }

  /** If the first `m` characters of a replacement result all belong to the pattern,
      no replacement starts among them (a replacement starts with `rep[0]`, which is
      not in the pattern), so they are the text's own first `m` characters. */
  lemma {:induction false} UnreplacedPrefix(y: string, t: string, v: string, m: nat)
    requires |t| > 0 && |v| > 0 && v[0] !in t
    requires m <= |ReplaceAll(y, t, v)|
    ensures (forall i :: 0 <= i < m ==> ReplaceAll(y, t, v)[i] in t) ==>
      m <= |y| && ReplaceAll(y, t, v)[..m] == y[..m]
    decreases |y|
  {
    var r := ReplaceAll(y, t, v);
    if m > 0 && |y| >= |t| {
      if y[..|t|] == t {
        assert r[0] == v[0];
      } else {
        var r1 := ReplaceAll(y[1..], t, v);
        assert r == [y[0]] + r1;
        UnreplacedPrefix(y[1..], t, v, m - 1);
        if forall i :: 0 <= i < m ==> r[i] in t {
          assert forall i :: 0 <= i < m - 1 ==> r1[i] == r[i + 1];
          assert r[..m] == [y[0]] + r1[..m - 1];
          assert y[..m] == [y[0]] + y[1..][..m - 1];
        }
      }
    }
  }

  /** No occurrence straddles or follows an inserted value `v`. */
  lemma AfterReplacement(t: string, v: string, r1: string)
    requires |t| > 0 && |v| > 0 && v[|v| - 1] !in t && !Occurs(t, v) && !Occurs(t, r1)
    ensures !Occurs(t, v + r1)
  {
    var r := v + r1;
    forall k
      ensures !OccursAt(t, r, k)
    {
      if 0 <= k && k + |t| <= |r| {
        if k + |t| <= |v| {
          assert r[k..k + |t|] == v[k..k + |t|];
          assert !OccursAt(t, v, k);
        } else if k < |v| {
          var j := |v| - 1 - k;
          assert r[k..k + |t|][j] == v[|v| - 1];
          assert t[j] in t;
        } else {
          OccursAfterPrefix(t, v, r1, k);
        }
      }
    }
  }

  /** No occurrence starts at a character the scan kept. */
  lemma AfterKeptChar(s: string, t: string, v: string)
    requires |t| > 0 && |v| > 0 && v[0] !in t
    requires |s| >= |t| && s[..|t|] != t
    requires !Occurs(t, ReplaceAll(s[1..], t, v))
    ensures !Occurs(t, [s[0]] + ReplaceAll(s[1..], t, v))
  {
    var r1 := ReplaceAll(s[1..], t, v);
    var r := [s[0]] + r1;
    forall k
      ensures !OccursAt(t, r, k)
    {
      if k >= 1 {
        OccursAfterPrefix(t, [s[0]], r1, k);
      } else if k == 0 {
        KeptCharStartsNoOccurrence(s, t, v);
      }
    }
  }

  /** An occurrence past a prefix `p` is one in the rest of the text. */
  lemma OccursAfterPrefix(t: string, p: string, r1: string, k: int)
    requires k >= |p|
    ensures OccursAt(t, p + r1, k) == OccursAt(t, r1, k - |p|)
  {
    if k + |t| <= |p + r1| {
      assert (p + r1)[k..k + |t|] == r1[k - |p|..k - |p| + |t|];
    }
  }

  /** The kept character does not start an occurrence either: the characters after it
      would have to be the text's own, and the text did not start with the pattern. */
  lemma KeptCharStartsNoOccurrence(s: string, t: string, v: string)
    requires |t| > 0 && |v| > 0 && v[0] !in t
    requires |s| >= |t| && s[..|t|] != t
    ensures !OccursAt(t, [s[0]] + ReplaceAll(s[1..], t, v), 0)
  {
    var s1 := s[1..];
    var r1 := ReplaceAll(s1, t, v);
    var r := [s[0]] + r1;
    if |t| <= |r| {
      UnreplacedPrefix(s1, t, v, |t| - 1);
      if forall i :: 0 <= i < |t| - 1 ==> r1[i] in t {
        assert r[..|t|] == [s[0]] + r1[..|t| - 1];
        assert s[..|t|] == [s[0]] + s1[..|t| - 1];
      } else {
        var i :| 0 <= i < |t| - 1 && r1[i] !in t;
        assert r[..|t|][i + 1] == r1[i];
        assert t[i + 1] in t;
      }
    }
  }

  /** After a global replacement the pattern is gone, provided the replacement is not
      empty, does not begin or end with a character of the pattern and does not hold
      the pattern itself. (Without these provisions an occurrence can straddle a
      replacement: see `StraddlingTokenSurvives`.) */
  lemma {:induction false} ReplaceEliminates(s: string, t: string, v: string)
    requires |t| > 0 && |v| > 0 && v[0] !in t && v[|v| - 1] !in t && !Occurs(t, v)
    ensures !Occurs(t, ReplaceAll(s, t, v))
    decreases |s|
  {
    if |s| < |t| {
      assert forall k :: !OccursAt(t, s, k);
    } else if s[..|t|] == t {
      ReplaceEliminates(s[|t|..], t, v);
      AfterReplacement(t, v, ReplaceAll(s[|t|..], t, v));
    } else {
      ReplaceEliminates(s[1..], t, v);
      AfterKeptChar(s, t, v);
    }
  }

  // ----- strings.TrimSpace

  /** `unicode.IsSpace`: the Unicode White_Space characters. */
  predicate IsSpace(c: char) {
    var n := c as int;
    (0x09 <= n <= 0x0D) || n == 0x20 || n == 0x85 || n == 0xA0 || n == 0x1680
    || (0x2000 <= n <= 0x200A) || n == 0x2028 || n == 0x2029 || n == 0x202F
    || n == 0x205F || n == 0x3000
  }

  /** Neither end of `s` satisfies `f`. */
  predicate TrimmedBy(s: string, f: char -> bool) {
    s == [] || (!f(s[0]) && !f(s[|s| - 1]))
  }

  /** Neither end of `s` is white space. */
  predicate Trimmed(s: string) {
    TrimmedBy(s, IsSpace)
  }

  /** Where `strings.TrimLeftFunc` cuts: the first index at or after `i` whose character
      `f` rejects, or `|s|` if there is none. */
  function FirstKept(s: string, f: char -> bool, i: nat): (n: nat)
    requires i <= |s|
    ensures i <= n <= |s|
    ensures forall k :: i <= k < n ==> f(s[k])
    ensures n < |s| ==> !f(s[n])
    decreases |s| - i
  {
    if i < |s| && f(s[i]) then FirstKept(s, f, i + 1) else i
  }

  /** Where `strings.TrimRightFunc` cuts: just past the last index before `j` whose
      character `f` rejects, or 0 if there is none. */
  function LastKept(s: string, f: char -> bool, j: nat): (n: nat)
    requires j <= |s|
    ensures n <= j
    ensures forall k :: n <= k < j ==> f(s[k])
    ensures n > 0 ==> !f(s[n - 1])
  {
    if j > 0 && f(s[j - 1]) then LastKept(s, f, j - 1) else j
  }

  /** `strings.TrimLeftFunc(s, f)` */
  function TrimLeftFunc(s: string, f: char -> bool): string {
    s[FirstKept(s, f, 0)..]
  }

  /** `strings.TrimRightFunc(s, f)` */
  function TrimRightFunc(s: string, f: char -> bool): string {
    s[..LastKept(s, f, |s|)]
  }

  /** `strings.TrimFunc(s, f)` */
  function TrimFunc(s: string, f: char -> bool): string {
    TrimRightFunc(TrimLeftFunc(s, f), f)
  }

  /** Neither end of what `TrimFunc` leaves satisfies `f`. */
  lemma TrimFuncTrimmed(s: string, f: char -> bool)
    ensures TrimmedBy(TrimFunc(s, f), f)
  {
    var l := TrimLeftFunc(s, f);
    var n := LastKept(l, f, |l|);
    var r := l[..n];
    if r != [] {
      assert r[0] == l[0] == s[FirstKept(s, f, 0)];
      assert r[|r| - 1] == l[n - 1];
    }
  }

  /** `TrimFunc` leaves the slice of `s` from where `TrimLeftFunc` cuts, and what it
      cuts off at either end satisfies `f`. */
  lemma TrimFuncIsSlice(s: string, f: char -> bool)
    ensures var r, i := TrimFunc(s, f), FirstKept(s, f, 0);
      && i + |r| <= |s|
      && r == s[i..i + |r|]
      && (forall k :: 0 <= k < i ==> f(s[k]))
      && (forall k :: i + |r| <= k < |s| ==> f(s[k]))
  {
    var i := FirstKept(s, f, 0);
    var l := s[i..];
    var n := LastKept(l, f, |l|);
    assert TrimFunc(s, f) == l[..n] == s[i..i + n];
    forall k | i + n <= k < |s| ensures f(s[k]) {
      assert s[k] == l[k - i];
    }
  }

  /** `strings.TrimSpace(s)`, which trims what `unicode.IsSpace` accepts. */
  function TrimSpace(s: string): string {
    TrimFunc(s, IsSpace)
  }

  /** Trimming trimmed text changes nothing. */
  lemma TrimSpaceOfTrimmed(s: string)
    requires Trimmed(s)
    ensures TrimSpace(s) == s
  {
    assert FirstKept(s, IsSpace, 0) == 0;
    assert TrimLeftFunc(s, IsSpace) == s;
    assert LastKept(s, IsSpace, |s|) == |s|;
  }

  /** The trimmed text is a slice of the input: nothing but white space is lost, at
      the ends only. */
  lemma TrimSpaceSlice(s: string)
    ensures Trimmed(TrimSpace(s))
    ensures var r, i := TrimSpace(s), FirstKept(s, IsSpace, 0);
      && i + |r| <= |s|
      && r == s[i..i + |r|]
      && (forall k :: 0 <= k < i ==> IsSpace(s[k]))
      && (forall k :: i + |r| <= k < |s| ==> IsSpace(s[k]))
  {
    TrimFuncTrimmed(s, IsSpace);
    TrimFuncIsSlice(s, IsSpace);
  }

  /** Trimming adds no character. */
  lemma TrimKeepsAbsent(s: string, x: char)
    requires x !in s
    ensures x !in TrimSpace(s)
  {
    TrimFuncIsSlice(s, IsSpace);
    var r, i := TrimSpace(s), FirstKept(s, IsSpace, 0);
    assert forall k :: 0 <= k < |r| ==> r[k] == s[i + k];
  }
}
