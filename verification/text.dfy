/** Substring search and Go's `strings.ReplaceAll`, with the facts the error-message
    rewriting relies on: replacing an absent pattern changes nothing, replacing a present
    one leaves the replacement behind, and an occurrence of a word that cannot overlap the
    pattern survives the replacement. */
module Text {

  predicate StartsWith(s: string, p: string) {
    |p| <= |s| && s[..|p|] == p
  }

  /** `strings.Contains(s, w)`: `w` occurs at some position of `s`. */
  predicate Contains(s: string, w: string) {
    exists q | 0 <= q <= |s| - |w| :: OccursAt(s, w, q)
  }

  /** `w` occurs in `s` starting at position `q`. */
  predicate OccursAt(s: string, w: string, q: int) {
    0 <= q && q + |w| <= |s| && s[q..q + |w|] == w
  }

  /** `strings.ReplaceAll(s, pat, rep)` for a non-empty pattern: scan left to right and
      replace each non-overlapping occurrence of `pat`, resuming after it. */
  function ReplaceAll(s: string, pat: string, rep: string): (r: string)
    requires |pat| > 0
    ensures !Contains(s, pat) ==> r == s
    ensures Contains(s, pat) ==> Contains(r, rep)
    decreases |s|
  {
    if |s| == 0 then s
    else if StartsWith(s, pat) then
      var tail := ReplaceAll(s[|pat|..], pat, rep);
      assert (rep + tail)[..|rep|] == rep;
      StartsWithContains(s, pat);
      StartsWithContains(rep + tail, rep);
      rep + tail
    else
      var tail := ReplaceAll(s[1..], pat, rep);
      ContainsTail(s, pat);
      ContainsCons(s[0], tail, rep);
      if !Contains(s, pat) then
        assert s == [s[0]] + s[1..];
        [s[0]] + tail
      else
        [s[0]] + tail
  }

  /** If `s` contains `w` but does not start with it, the occurrence lies in `s[1..]`;
      and conversely an occurrence in `s[1..]` is one in `s`. */
  lemma ContainsTail(s: string, w: string)
    requires |s| > 0
    ensures Contains(s, w) && !StartsWith(s, w) ==> Contains(s[1..], w)
    ensures Contains(s[1..], w) ==> Contains(s, w)
  {
    if Contains(s, w) && !StartsWith(s, w) {
      var q :| OccursAt(s, w, q);
      assert OccursAt(s, w, q);
      assert q != 0;
      assert s[1..][q - 1..q - 1 + |w|] == s[q..q + |w|];
      assert OccursAt(s[1..], w, q - 1);
    }
    if Contains(s[1..], w) {
      var q :| OccursAt(s[1..], w, q);
      assert OccursAt(s[1..], w, q);
      assert s[q + 1..q + 1 + |w|] == s[1..][q..q + |w|];
      assert OccursAt(s, w, q + 1);
    }
  }

  lemma ContainsCons(c: char, t: string, w: string)
    ensures Contains(t, w) ==> Contains([c] + t, w)
  {
    if Contains(t, w) {
      var q :| OccursAt(t, w, q);
      assert OccursAt(t, w, q);
      assert ([c] + t)[q + 1..q + 1 + |w|] == t[q..q + |w|];
      assert OccursAt([c] + t, w, q + 1);
    }
  }

  /** An occurrence in `t` is an occurrence in `p + t`. */
  lemma ContainsAppendLeft(p: string, t: string, w: string)
    requires Contains(t, w)
    ensures Contains(p + t, w)
  {
    var q :| OccursAt(t, w, q);
    assert OccursAt(t, w, q);
    assert (p + t)[|p| + q..|p| + q + |w|] == t[q..q + |w|];
    assert OccursAt(p + t, w, |p| + q);
  }

  /** A prefix of `s` is an occurrence in it. */
  lemma StartsWithContains(s: string, w: string)
    requires StartsWith(s, w)
    ensures Contains(s, w)
  {
    assert s[0..|w|] == w;
    assert OccursAt(s, w, 0);
  }

  /** `a` and `b` agree on their common length: one is a prefix of the other. */
  predicate Compatible(a: string, b: string) {
    var m := if |a| < |b| then |a| else |b|;
    a[..m] == b[..m]
  }

  /** `b` placed at some position of `a` agrees with `a` where they overlap. */
  predicate CanStartIn(a: string, b: string) {
    exists j :: 0 <= j < |a| && Compatible(a[j..], b)
  }

  /** No occurrence of `pat` can overlap an occurrence of `w` in any string. */
  predicate Separated(pat: string, w: string) {
    !CanStartIn(w, pat) && !CanStartIn(pat, w)
  }

  /** A cheap sufficient test for `!CanStartIn(a, b)`: every position of `a` from `j` on
      differs from `b` in its first or second character. Written by recursion on the
      position so that the verifier can evaluate it on literal words. */
  predicate BigramFree(a: string, b: string, j: nat := 0)
    requires |b| >= 2
    decreases |a| - j
  {
    j >= |a| || (DiffersAt(a, b, j) && BigramFree(a, b, j + 1))
  }

  /** `b` placed at position `j` of `a` disagrees in its first or second character. */
  predicate DiffersAt(a: string, b: string, j: nat)
    requires j < |a| && |b| >= 2
  {
    a[j] != b[0] || (j + 1 < |a| && a[j + 1] != b[1])
  }

  lemma {:induction false} BigramFreeAt(a: string, b: string, j: nat, k: nat)
    requires |b| >= 2 && BigramFree(a, b, j) && j <= k < |a|
    ensures DiffersAt(a, b, k)
    decreases k - j
  {
    if j < k {
      BigramFreeAt(a, b, j + 1, k);
    }
  }

  lemma BigramFreeCannotStart(a: string, b: string)
    requires |b| >= 2 && BigramFree(a, b)
    ensures !CanStartIn(a, b)
  {
    forall j | 0 <= j < |a|
      ensures !Compatible(a[j..], b)
    {
      BigramFreeAt(a, b, 0, j);
      DiffersNotCompatible(a, b, j);
    }
  }

  lemma DiffersNotCompatible(a: string, b: string, j: nat)
    requires j < |a| && |b| >= 2 && DiffersAt(a, b, j)
    ensures !Compatible(a[j..], b)
  {
    var m := if |a[j..]| < |b| then |a[j..]| else |b|;
    if a[j] != b[0] {
      assert a[j..][..m][0] != b[..m][0];
    } else {
      assert a[j..][..m][1] != b[..m][1];
    }
  }

  lemma StartsWithAt(s: string, w: string, j: nat)
    requires j <= |s| && StartsWith(s[j..], w)
    ensures OccursAt(s, w, j)
  {
    assert s[j..][..|w|] == s[j..j + |w|];
  }

  /** An occurrence of a non-empty word is a position where it can start. */
  lemma ContainsCanStart(s: string, w: string)
    ensures |w| > 0 && Contains(s, w) ==> CanStartIn(s, w)
  {
    if |w| > 0 && Contains(s, w) {
      var q :| 0 <= q <= |s| - |w| && OccursAt(s, w, q);
      assert s[q..][..|w|] == w[..|w|];
      assert Compatible(s[q..], w);
    }
  }

  /** Two occurrences in one string where `b` starts inside `a` make `b` able to start in `a`. */
  lemma OverlapCanStart(s: string, a: string, b: string, i: nat, k: nat)
    requires OccursAt(s, a, i) && OccursAt(s, b, k)
    requires i <= k < i + |a|
    ensures CanStartIn(a, b)
  {
    var d := k - i;
    var m := if |a[d..]| < |b| then |a[d..]| else |b|;
    assert a[d..][..m] == s[k..k + m];
    assert b[..m] == s[k..k + m];
    assert Compatible(a[d..], b);
  }

  /** Positions `[0, n)` of `s` start no occurrence of `pat`, so the first `n` characters
      of `s` are copied to the front of the result. */
  lemma {:induction false} PrefixKept(s: string, pat: string, rep: string, n: nat)
    requires |pat| > 0 && n <= |s|
    requires forall j :: 0 <= j < n ==> !StartsWith(s[j..], pat)
    ensures StartsWith(ReplaceAll(s, pat, rep), s[..n])
    decreases n
  {
    if n > 0 {
      assert s[0..] == s;
      forall j | 0 <= j < n - 1
        ensures !StartsWith(s[1..][j..], pat)
      {
        assert s[1..][j..] == s[j + 1..];
      }
      PrefixKept(s[1..], pat, rep, n - 1);
      var tail := ReplaceAll(s[1..], pat, rep);
      assert ReplaceAll(s, pat, rep) == [s[0]] + tail;
      assert s[..n] == [s[0]] + s[1..][..n - 1];
    }
  }

  /** An occurrence at position `q >= d` is one at `q - d` of the suffix from `d`. */
  lemma ShiftOccurrence(s: string, w: string, q: nat, d: nat)
    requires OccursAt(s, w, q) && d <= q
    ensures OccursAt(s[d..], w, q - d)
  {
    assert s[d..][q - d..q - d + |w|] == s[q..q + |w|];
  }

  /** When `pat` starts `s`, a separated word occurs only after that occurrence. */
  lemma SeparatedAfterPattern(s: string, pat: string, w: string, q: nat)
    requires Separated(pat, w) && StartsWith(s, pat) && OccursAt(s, w, q)
    ensures q >= |pat|
  {
    if q < |pat| {
      StartsWithAt(s, pat, 0);
      OverlapCanStart(s, pat, w, 0, q);
    }
  }

  /** An occurrence of a separated word at the very start survives the replacement. */
  lemma LeadingOccurrenceKept(s: string, pat: string, rep: string, w: string)
    requires |pat| > 0 && |w| > 0
    requires Separated(pat, w) && OccursAt(s, w, 0)
    ensures Contains(ReplaceAll(s, pat, rep), w)
  {
    forall j | 0 <= j < |w|
      ensures !StartsWith(s[j..], pat)
    {
      if StartsWith(s[j..], pat) {
        StartsWithAt(s, pat, j);
        OverlapCanStart(s, w, pat, 0, j);
      }
    }
    PrefixKept(s, pat, rep, |w|);
    assert s[..|w|] == w;
    StartsWithContains(ReplaceAll(s, pat, rep), w);
  }

  /** An occurrence of `w` at position `q` of `s` survives replacing `pat`, provided the
      two words can never overlap. */
  lemma {:induction false} OccurrenceKept(s: string, pat: string, rep: string, w: string, q: nat)
    requires |pat| > 0 && |w| > 0
    requires Separated(pat, w)
    requires OccursAt(s, w, q)
    ensures Contains(ReplaceAll(s, pat, rep), w)
    decreases |s|
  {
    if StartsWith(s, pat) {
      SeparatedAfterPattern(s, pat, w, q);
      ShiftOccurrence(s, w, q, |pat|);
      OccurrenceKept(s[|pat|..], pat, rep, w, q - |pat|);
      assert ReplaceAll(s, pat, rep) == rep + ReplaceAll(s[|pat|..], pat, rep);
      ContainsAppendLeft(rep, ReplaceAll(s[|pat|..], pat, rep), w);
    } else if q > 0 {
      ShiftOccurrence(s, w, q, 1);
      OccurrenceKept(s[1..], pat, rep, w, q - 1);
      assert ReplaceAll(s, pat, rep) == [s[0]] + ReplaceAll(s[1..], pat, rep);
      ContainsCons(s[0], ReplaceAll(s[1..], pat, rep), w);
    } else {
      LeadingOccurrenceKept(s, pat, rep, w);
    }
  }

  /** Containment form of `OccurrenceKept`. */
  lemma ContainsKept(s: string, pat: string, rep: string, w: string)
    requires |pat| > 0 && |w| > 0
    requires Separated(pat, w)
    requires Contains(s, w)
    ensures Contains(ReplaceAll(s, pat, rep), w)
  {
    var q :| OccursAt(s, w, q);
    assert OccursAt(s, w, q);
    OccurrenceKept(s, pat, rep, w, q);
  }

  lemma ContainsMiddle(p: string, w: string, t: string)
    ensures Contains(p + w + t, w)
  {
    assert (p + w + t)[|p|..|p| + |w|] == w;
    assert OccursAt(p + w + t, w, |p|);
  }

  /** A word with a character the text lacks does not occur in it. */
  lemma MissingCharNotContained(s: string, w: string, c: char)
    requires c in w && c !in s
    ensures !Contains(s, w)
  {
    var i :| 0 <= i < |w| && w[i] == c;
    forall q | 0 <= q <= |s| - |w|
      ensures !OccursAt(s, w, q)
    {
      assert s[q..q + |w|][i] == s[q + i];
    }
  }

  /** An occurrence of an occurrence is an occurrence. */
  lemma ContainsTransitive(s: string, t: string, w: string)
    requires Contains(s, t) && Contains(t, w)
    ensures Contains(s, w)
  {
    var i :| OccursAt(s, t, i);
    assert OccursAt(s, t, i);
    var k :| OccursAt(t, w, k);
    assert OccursAt(t, w, k);
    forall n | 0 <= n < |w|
      ensures s[i + k + n] == w[n]
    {
      assert t[k..k + |w|][n] == t[k + n];
      assert s[i..i + |t|][k + n] == s[i + k + n];
    }
    assert s[i + k..i + k + |w|] == w;
    assert OccursAt(s, w, i + k);
  }
}
