/**
  The two fixed regular expressions the plugin applies to rendered
  content, written as direct scanners:

  - `preg_match_all('/<img[^>]+>/i', …)`: every image tag, leftmost first,
    non-overlapping, each one `<img` (ASCII case ignored), at least one
    character other than `>`, then the first `>`;
  - `preg_match('/src="([^"]*)"/i', …)`: the value of the leftmost
    `src="…"` in a tag (case ignored on `src`), up to the next `"`.
 */
module Scan {
  import opened Wrappers
  import opened Text

  /** The language of `<img[^>]+>` under `/i`. */
  predicate IsImgTag(t: string) {
    && |t| >= 6
    && CiStartsWith(t, "<img")
    && t[|t| - 1] == '>'
    && forall k :: 4 <= k < |t| - 1 ==> t[k] != '>'
  }

  /** The length of the match of `<img[^>]+>` anchored at the start of `s`, if any. */
  function TagAt(s: string): (r: Option<nat>)
    ensures r.Some? ==> r.value <= |s| && IsImgTag(s[..r.value])
  {
    if |s| >= 5 && CiStartsWith(s, "<img") && s[4] != '>' then
      match IndexFrom(s, '>', 5)
      case Some(k) => Some(k + 1)
      case None => None
    else None
  }

  /** The anchored scanner matches exactly the prefixes the pattern describes. */
  lemma TagAtIsPatternMatch(s: string, n: nat)
    ensures TagAt(s) == Some(n) <==> n <= |s| && IsImgTag(s[..n])
  {
    if n <= |s| && IsImgTag(s[..n]) {
      var t := s[..n];
      assert CiStartsWith(s, "<img") by {
        forall k | 0 <= k < 4 ensures LowerAscii(s[k]) == "<img"[k] {
          assert s[k] == t[k];
        }
      }
      assert s[4] == t[4];
      assert s[n - 1] == t[n - 1];
      forall k | 5 <= k < n - 1 ensures s[k] != '>' {
        assert s[k] == t[k];
      }
      match IndexFrom(s, '>', 5)
      case Some(k) =>
        assert k == n - 1;
      case None =>
        assert false;
    }
  }

  /**
    All matches of `<img[^>]+>` in document order: where a match starts it
    is taken whole and the scan resumes after it; elsewhere the scan moves
    on by one character.
   */
  function ImgTags(s: string): (tags: seq<string>)
    ensures forall i :: 0 <= i < |tags| ==> IsImgTag(tags[i])
    decreases |s|
  {
    if s == [] then []
    else
      match TagAt(s)
      case Some(n) => [s[..n]] + ImgTags(s[n..])
      case None => ImgTags(s[1..])
  }

  /** No tag is found exactly when the pattern matches at no position. */
  lemma {:induction false} NoTagsIffNoMatch(s: string)
    ensures ImgTags(s) == [] <==> forall i :: 0 <= i <= |s| ==> TagAt(s[i..]).None?
    decreases |s|
  {
    if s != [] {
      match TagAt(s)
      case Some(n) =>
        assert s[0..] == s;
      case None =>
        NoTagsIffNoMatch(s[1..]);
        forall i | 1 <= i <= |s| ensures s[i..] == s[1..][i - 1..] { }
        assert s[0..] == s;
    }
  }

  /** A tag at the front of the content is the first one found. */
  lemma TagFirst(t: string, rest: string)
    requires IsImgTag(t)
    ensures ImgTags(t + rest) == [t] + ImgTags(rest)
  {
    var s := t + rest;
    assert s[..|t|] == t;
    TagAtIsPatternMatch(s, |t|);
    assert s[|t|..] == rest;
  }

  /**
    Text in which no match of the pattern starts contributes no tag and
    leaves the scan where it was, even when a match would run into the
    text after it.
   */
  lemma {:induction false} SkipText(p: string, rest: string)
    requires forall j :: 0 <= j < |p| ==> TagAt((p + rest)[j..]).None?
    ensures ImgTags(p + rest) == ImgTags(rest)
    decreases |p|
  {
    if p == [] {
      assert p + rest == rest;
    } else {
      var s := p + rest;
      assert s[0..] == s;
      assert ImgTags(s) == ImgTags(s[1..]);
      assert s[1..] == p[1..] + rest;
      forall j | 0 <= j < |p[1..]| ensures TagAt((p[1..] + rest)[j..]).None? {
        assert (p[1..] + rest)[j..] == s[j + 1..];
      }
      SkipText(p[1..], rest);
    }
  }

  /** The first tag found is the match at the leftmost position where the pattern matches. */
  lemma {:induction false} FirstTagIsLeftmost(s: string)
    ensures ImgTags(s) != [] ==>
      exists i :: 0 <= i < |s| && TagAt(s[i..]).Some? && ImgTags(s)[0] == s[i..][..TagAt(s[i..]).value] &&
        forall j :: 0 <= j < i ==> TagAt(s[j..]).None?
    decreases |s|
  {
    if s != [] {
      assert s[0..] == s;
      if TagAt(s).None? {
        FirstTagIsLeftmost(s[1..]);
        if ImgTags(s) != [] {
          var i :| 0 <= i < |s[1..]| && TagAt(s[1..][i..]).Some? &&
            ImgTags(s[1..])[0] == s[1..][i..][..TagAt(s[1..][i..]).value] &&
            forall j :: 0 <= j < i ==> TagAt(s[1..][j..]).None?;
          assert s[1..][i..] == s[i + 1..];
          forall j | 0 <= j < i + 1 ensures TagAt(s[j..]).None? {
            if j > 0 {
              assert s[j..] == s[1..][j - 1..];
            }
          }
        }
      }
    }
  }

  /** The language of `src="([^"]*)"` under `/i`, with `v` the captured group. */
  predicate IsSrcAttr(t: string, v: string) {
    && |t| == |v| + 6
    && CiStartsWith(t, "src=\"")
    && t[5..|t| - 1] == v
    && t[|t| - 1] == '"'
    && '"' !in v
  }

  /** The captured value of `src="([^"]*)"` anchored at the start of `s`, if any. */
  function SrcAt(s: string): (r: Option<string>)
    ensures r.Some? ==> |r.value| + 6 <= |s| && IsSrcAttr(s[..|r.value| + 6], r.value)
  {
    if CiStartsWith(s, "src=\"") then
      match IndexFrom(s, '"', 5)
      case Some(k) => Some(s[5..k])
      case None => None
    else None
  }

  /** The anchored scanner matches exactly what the pattern describes. */
  lemma SrcAtIsPatternMatch(s: string, v: string)
    ensures SrcAt(s) == Some(v) <==> |v| + 6 <= |s| && IsSrcAttr(s[..|v| + 6], v)
  {
    if |v| + 6 <= |s| && IsSrcAttr(s[..|v| + 6], v) {
      var t := s[..|v| + 6];
      assert CiStartsWith(s, "src=\"") by {
        forall k | 0 <= k < 5 ensures LowerAscii(s[k]) == "src=\""[k] {
          assert s[k] == t[k];
        }
      }
      assert s[|v| + 5] == '"';
      forall k | 5 <= k < |v| + 5 ensures s[k] != '"' {
        assert s[k] == t[k] == v[k - 5];
      }
      match IndexFrom(s, '"', 5)
      case Some(k) =>
        assert k == |v| + 5;
        assert s[5..k] == t[5..|t| - 1];
      case None =>
        assert false;
    }
  }

  /** `preg_match` of `src="([^"]*)"`: the value at the leftmost position where it matches. */
  function FirstSrc(s: string): (r: Option<string>)
    ensures r.Some? ==> '"' !in r.value && |r.value| + 6 <= |s|
    decreases |s|
  {
    if s == [] then None
    else if SrcAt(s).Some? then SrcAt(s)
    else FirstSrc(s[1..])
  }

  /** `FirstSrc` reports the leftmost match, and nothing only when there is none. */
  lemma {:induction false} FirstSrcIsLeftmost(s: string)
    ensures FirstSrc(s).Some? ==>
      exists i :: 0 <= i < |s| && SrcAt(s[i..]) == FirstSrc(s) &&
        forall j :: 0 <= j < i ==> SrcAt(s[j..]).None?
    ensures FirstSrc(s).None? ==> forall i :: 0 <= i <= |s| ==> SrcAt(s[i..]).None?
    decreases |s|
  {
    if s == [] {
    } else if SrcAt(s).Some? {
      assert s[0..] == s;
    } else {
      FirstSrcIsLeftmost(s[1..]);
      forall i | 1 <= i <= |s| ensures s[i..] == s[1..][i - 1..] { }
      assert s[0..] == s;
      if FirstSrc(s).Some? {
        var i :| 0 <= i < |s[1..]| && SrcAt(s[1..][i..]) == FirstSrc(s[1..]) &&
          forall j :: 0 <= j < i ==> SrcAt(s[1..][j..]).None?;
        assert SrcAt(s[i + 1..]) == FirstSrc(s);
        forall j | 0 <= j < i + 1 ensures SrcAt(s[j..]).None? {
          if j > 0 {
            assert s[j..] == s[1..][j - 1..];
          }
        }
      }
    }
  }

  /** No `src="…"` starts at a character other than `s` or `S`, so the search moves on. */
  lemma FirstSrcSkip(s: string)
    requires s != [] && s[0] != 's' && s[0] != 'S'
    ensures FirstSrc(s) == FirstSrc(s[1..])
  {
    assert LowerAscii(s[0]) != 's';
  }

  /** Without an `s` or `S` there is no `src="…"` to find. */
  lemma {:induction false} NoSrcWithoutS(t: string)
    requires 's' !in t && 'S' !in t
    ensures FirstSrc(t).None?
    decreases |t|
  {
    if t != [] {
      assert t[0] in t;
      assert !CiStartsWith(t, "src=\"");
      assert forall c :: c in t[1..] ==> c in t;
      NoSrcWithoutS(t[1..]);
    }
  }

  /**
    `$match[1]` after `preg_match` of `src="([^"]*)"`: the captured value,
    or, for a tag without such an attribute, PHP's null, which every later
    use reads as the empty string.
   */
  function SrcOf(tag: string): (src: string)
    ensures '"' !in src && |src| <= |tag|
    ensures FirstSrc(tag).None? ==> src == ""
  {
    FirstSrc(tag).GetOr("")
  }
}
