/**
  String primitives the plugin relies on: the prefix test behind
  `at_starts_with`, ASCII case-insensitive matching, searching for a
  character, and PHP's `str_replace` for a single search string.
  Strings are sequences of characters, compared exactly.
 */
module Text {
  import opened Wrappers

  /** `p` is a prefix of `s`: what `strncmp(s, p, strlen(p)) == 0` tests. */
  predicate StartsWith(s: string, p: string) {
    |p| <= |s| && s[..|p|] == p
  }

  /**
    `at_starts_with(s, ps)`: the list is tried in order and the first
    prefix that matches answers true; an exhausted list answers false.
   */
  function AtStartsWith(s: string, ps: seq<string>): (r: bool)
    ensures r <==> exists i :: 0 <= i < |ps| && StartsWith(s, ps[i])
  {
    if ps == [] then false
    else if StartsWith(s, ps[0]) then true
    else
      var r := AtStartsWith(s, ps[1..]);
      assert forall i :: 1 <= i < |ps| ==> ps[i] == ps[1..][i - 1];
      r
  }

  /** ASCII lower-casing, the only case folding a PCRE pattern with `/i` does without `/u`. */
  function LowerAscii(c: char): char {
    if 'A' <= c <= 'Z' then (c as int + 32) as char else c
  }

  /** `s` starts with the lower-case pattern `p`, ignoring ASCII case in `s`. */
  predicate CiStartsWith(s: string, p: string) {
    |p| <= |s| && forall k :: 0 <= k < |p| ==> LowerAscii(s[k]) == p[k]
  }

  /** The first position at or after `from` that holds `c`. */
  function IndexFrom(s: string, c: char, from: nat): (r: Option<nat>)
    ensures r.Some? ==> from <= r.value < |s| && s[r.value] == c
    ensures r.Some? ==> forall k :: from <= k < r.value ==> s[k] != c
    ensures r.None? ==> forall k :: from <= k < |s| ==> s[k] != c
    decreases |s| - from
  {
    if from >= |s| then None
    else if s[from] == c then Some(from)
    else IndexFrom(s, c, from + 1)
  }

  /** `pat` occurs in `s` starting at position `i`. */
  predicate OccursAt(s: string, pat: string, i: int) {
    0 <= i <= |s| && StartsWith(s[i..], pat)
  }

  ghost predicate Contains(s: string, pat: string) {
    exists i :: OccursAt(s, pat, i)
  }

  /**
    PHP `str_replace(pat, rep, s)` for one search string: scanning left to
    right, every non-overlapping occurrence of `pat` is replaced by `rep`
    and scanning resumes after it. An empty search string changes nothing.
   */
  function ReplaceAll(s: string, pat: string, rep: string): (r: string)
    ensures pat == [] ==> r == s
    ensures |rep| >= |pat| ==> |r| >= |s|
    decreases |s|
  {
    if pat == [] || |s| < |pat| then s
    else if StartsWith(s, pat) then rep + ReplaceAll(s[|pat|..], pat, rep)
    else [s[0]] + ReplaceAll(s[1..], pat, rep)
  }

  /** Text without an occurrence of the search string comes back unchanged. */
  lemma {:induction false} ReplaceAbsent(s: string, pat: string, rep: string)
    requires !Contains(s, pat)
    ensures ReplaceAll(s, pat, rep) == s
    decreases |s|
  {
    if pat == [] || |s| < |pat| {
    } else {
      assert !OccursAt(s, pat, 0);
      assert s[0..] == s;
      ReplaceSkip(s, pat, rep);
      forall i | 0 <= i <= |s[1..]| ensures !OccursAt(s[1..], pat, i) {
        assert s[1..][i..] == s[i + 1..];
        assert !OccursAt(s, pat, i + 1);
      }
      ReplaceAbsent(s[1..], pat, rep);
      assert [s[0]] + s[1..] == s;
    }
  }

  /** Where the search string does not start, one character is copied. */
  lemma ReplaceSkip(s: string, pat: string, rep: string)
    requires pat != [] && s != [] && !StartsWith(s, pat)
    ensures ReplaceAll(s, pat, rep) == [s[0]] + ReplaceAll(s[1..], pat, rep)
  {
    if |s| < |pat| {
      assert [s[0]] + s[1..] == s;
    }
  }

  /**
    The text before the first occurrence is copied unchanged, that
    occurrence becomes `rep`, and the rest is processed the same way.
   */
  lemma {:induction false} ReplaceFirst(a: string, pat: string, rep: string, b: string)
    requires pat != []
    requires forall i :: 0 <= i < |a| ==> !OccursAt(a + pat + b, pat, i)
    ensures ReplaceAll(a + pat + b, pat, rep) == a + rep + ReplaceAll(b, pat, rep)
    decreases |a|
  {
    var s := a + pat + b;
    if a == [] {
      assert s == pat + b;
      assert s[..|pat|] == pat;
      assert s[|pat|..] == b;
    } else {
      assert !OccursAt(s, pat, 0);
      assert s[0..] == s;
      assert !StartsWith(s, pat);
      var t := a[1..] + pat + b;
      ReplaceSkip(s, pat, rep);
      assert s[1..] == t;
      forall i | 0 <= i < |a[1..]|
        ensures !OccursAt(t, pat, i)
      {
        assert t[i..] == s[i + 1..];
        assert !OccursAt(s, pat, i + 1);
      }
      ReplaceFirst(a[1..], pat, rep, b);
      assert [s[0]] + a[1..] == a;
    }
  }

  /** Once the search string occurs and the replacement is longer, the text grows. */
  lemma {:induction false} ReplaceGrows(s: string, pat: string, rep: string)
    requires pat != [] && |rep| > |pat|
    requires Contains(s, pat)
    ensures |ReplaceAll(s, pat, rep)| > |s|
    decreases |s|
  {
    if !StartsWith(s, pat) {
      var i :| OccursAt(s, pat, i);
      assert i != 0;
      assert s[1..][i - 1..] == s[i..];
      assert OccursAt(s[1..], pat, i - 1);
      ReplaceGrows(s[1..], pat, rep);
    }
  }
}
