/**
  Image resolution: every image tag of the parsed content gives one URL,
  built from its `src` by a three-way prefix rule, and the configured
  default image, when there is one, is appended after them.
 */
module Images {
  import opened Wrappers
  import opened Text
  import opened Scan

  const AbsolutePrefixes: seq<string> := ["http://", "https://"]

  predicate IsAbsolute(src: string) {
    StartsWith(src, "http://") || StartsWith(src, "https://")
  }

  /**
    The URL built for one `src`: nothing is put in front of an absolute
    one, the base URL in front of a site-root one, and the base URL, a
    slash and the requested URL in front of any other, with no separator
    between the requested URL and `src`.
   */
  function Resolve(baseUrl: string, url: string, src: string): (r: string)
    ensures IsAbsolute(src) ==> r == src
    ensures !IsAbsolute(src) && StartsWith(src, "/") ==> r == baseUrl + src
    ensures !IsAbsolute(src) && !StartsWith(src, "/") ==> r == baseUrl + "/" + url + src
  {
    assert IsAbsolute(src) ==> StartsWith(src, AbsolutePrefixes[0]) || StartsWith(src, AbsolutePrefixes[1]);
    assert "" + "" + src == src;
    (if AtStartsWith(src, AbsolutePrefixes) then "" else baseUrl)
    + (if !AtStartsWith(src, AbsolutePrefixes) && !AtStartsWith(src, ["/"]) then "/" + url else "")
    + src
  }

  /**
    With an absolute base URL every resolved image is absolute, so resolving
    it again leaves it as it is.
   */
  lemma ResolveIdempotent(baseUrl: string, url: string, src: string)
    requires IsAbsolute(baseUrl)
    ensures IsAbsolute(Resolve(baseUrl, url, src))
    ensures Resolve(baseUrl, url, Resolve(baseUrl, url, src)) == Resolve(baseUrl, url, src)
  {
    if !IsAbsolute(src) {
      var r := Resolve(baseUrl, url, src);
      var rest := r[|baseUrl|..];
      assert r == baseUrl + rest;
      var p := if StartsWith(baseUrl, "http://") then "http://" else "https://";
      assert StartsWith(baseUrl, p);
      assert r[..|p|] == baseUrl[..|p|];
      assert StartsWith(r, p);
    }
  }

  /** The list `onContentParsed` stores: one resolved URL per tag, then the default image. */
  function ImageList(content: string, baseUrl: string, url: string, defaultImage: Option<string>): (images: seq<string>)
    ensures |images| == |ImgTags(content)| + |defaultImage.ToSeq()|
    ensures forall i :: 0 <= i < |ImgTags(content)| ==> images[i] == Resolve(baseUrl, url, SrcOf(ImgTags(content)[i]))
  {
    var tags := ImgTags(content);
    seq(|tags|, i requires 0 <= i < |tags| => Resolve(baseUrl, url, SrcOf(tags[i]))) + defaultImage.ToSeq()
  }

  /**
    The image shared is the first tag's when the content has one, and the
    default image, unresolved, only when it has none.
   */
  lemma ShareImage(content: string, baseUrl: string, url: string, defaultImage: Option<string>)
    ensures var images := ImageList(content, baseUrl, url, defaultImage);
      && |images| == |ImgTags(content)| + |defaultImage.ToSeq()|
      && (images != [] <==> ImgTags(content) != [] || defaultImage.Some?)
      && (ImgTags(content) != [] ==> images[0] == Resolve(baseUrl, url, SrcOf(ImgTags(content)[0])))
      && (ImgTags(content) == [] ==> images == defaultImage.ToSeq())
      && (defaultImage.Some? ==> images[|images| - 1] == defaultImage.value)
  {
    var tags := ImgTags(content);
    if tags == [] {
      assert seq(|tags|, i requires 0 <= i < |tags| => Resolve(baseUrl, url, SrcOf(tags[i]))) == [];
    }
  }

  /**
    When no match of the tag pattern starts before `tag`, that tag's image
    is the one shared, whatever precedes it (a `<p>`, say) and whatever
    follows.
   */
  lemma FirstTagShared(p: string, tag: string, rest: string, baseUrl: string, url: string, defaultImage: Option<string>)
    requires forall j :: 0 <= j < |p| ==> TagAt((p + tag + rest)[j..]).None?
    requires IsImgTag(tag)
    ensures var images := ImageList(p + tag + rest, baseUrl, url, defaultImage);
      images != [] && images[0] == Resolve(baseUrl, url, SrcOf(tag))
  {
    assert p + tag + rest == p + (tag + rest);
    SkipText(p, tag + rest);
    TagFirst(tag, rest);
    assert ImgTags(p + tag + rest)[0] == tag;
  }

  /** A paragraph opening before the image does not stop that image from being shared. */
  lemma ParagraphImageShared(tag: string, rest: string, baseUrl: string, url: string, defaultImage: Option<string>)
    requires IsImgTag(tag)
    ensures var images := ImageList("<p>" + tag + rest, baseUrl, url, defaultImage);
      images != [] && images[0] == Resolve(baseUrl, url, SrcOf(tag))
  {
    var s := "<p>" + tag + rest;
    forall j | 0 <= j < 3 ensures TagAt(s[j..]).None? {
      if j == 0 {
        assert s[j..][1] == 'p';
        assert LowerAscii(s[j..][1]) != "<img"[1];
      } else {
        assert s[j..][0] != '<';
      }
    }
    FirstTagShared("<p>", tag, rest, baseUrl, url, defaultImage);
  }

  /**
    The list as the comment before the default-image branch describes it:
    the default only when no image was found.
   */
  function FallbackImageList(content: string, baseUrl: string, url: string, defaultImage: Option<string>): seq<string> {
    var tags := ImgTags(content);
    seq(|tags|, i requires 0 <= i < |tags| => Resolve(baseUrl, url, SrcOf(tags[i])))
      + (if tags == [] then defaultImage.ToSeq() else [])
  }

  /**
    Appending the default unconditionally, as the code does, is not
    observable: only whether the list is empty and its first element are
    ever read, and both agree with the fallback-only list.
   */
  lemma UnconditionalDefaultUnobservable(content: string, baseUrl: string, url: string, defaultImage: Option<string>)
    ensures var images := ImageList(content, baseUrl, url, defaultImage);
      var fallback := FallbackImageList(content, baseUrl, url, defaultImage);
      && (images == [] <==> fallback == [])
      && (images != [] ==> images[0] == fallback[0])
  {
    var tags := ImgTags(content);
    var resolved := seq(|tags|, i requires 0 <= i < |tags| => Resolve(baseUrl, url, SrcOf(tags[i])));
    if tags == [] {
      assert resolved == [];
    } else {
      assert ImageList(content, baseUrl, url, defaultImage)[0] == resolved[0];
      assert FallbackImageList(content, baseUrl, url, defaultImage) == resolved;
    }
  }

  /**
    The loop of `onContentParsed` / `content_parsed`: the tags are visited
    in document order, each appends the URL resolved from its `src`, and
    the default image, when configured, is appended last.
   */
  method CollectImages(content: string, baseUrl: string, url: string, defaultImage: Option<string>)
    returns (images: seq<string>)
    ensures images == ImageList(content, baseUrl, url, defaultImage)
  {
    var tags := ImgTags(content);
    images := [];
    for i := 0 to |tags|
      invariant |images| == i
      invariant forall k :: 0 <= k < i ==> images[k] == Resolve(baseUrl, url, SrcOf(tags[k]))
    {
      var src := SrcOf(tags[i]);
      images := images + [Resolve(baseUrl, url, src)];
    }
    if defaultImage.Some? {
      images := images + [defaultImage.value];
    }
  }

  /** Worked cases under the base URL "http://x.com" and the page "blog/post1". */
  lemma ResolveExamples()
    ensures Resolve("http://x.com", "blog/post1", "/a.png") == "http://x.com/a.png"
    ensures Resolve("http://x.com", "blog/post1", "b.png") == "http://x.com/blog/post1b.png"
    ensures Resolve("http://x.com", "blog/post1", "https://cdn.example/c.png") == "https://cdn.example/c.png"
  {
    assert !StartsWith("/a.png", "http://") && !StartsWith("/a.png", "https://");
    assert StartsWith("/a.png", "/");
    assert !StartsWith("b.png", "http://") && !StartsWith("b.png", "https://");
    assert "b.png"[..1] != "/" by { assert "b.png"[..1][0] == 'b'; }
    assert StartsWith("https://cdn.example/c.png", "https://");
  }

  /** The `src` read from `<img src="/a.png">` is "/a.png". */
  lemma RootTagSrc(t: string)
    requires t == "<img src=\"/a.png\">"
    ensures SrcOf(t) == "/a.png"
  {
    var t5 := t[5..];
    assert t5 == "src=\"/a.png\">";
    SrcAtIsPatternMatch(t5, "/a.png");
    assert t5[..12] == "src=\"/a.png\"";
    assert FirstSrc(t5) == Some("/a.png");
    FirstSrcSkip(t[4..]);
    assert t[4..][1..] == t5;
    FirstSrcSkip(t[3..]);
    assert t[3..][1..] == t[4..];
    FirstSrcSkip(t[2..]);
    assert t[2..][1..] == t[3..];
    FirstSrcSkip(t[1..]);
    assert t[1..][1..] == t[2..];
    FirstSrcSkip(t);
  }

  /** A page whose only image is `<img src="/a.png">` shares the base URL followed by "/a.png". */
  lemma RootTagExample(content: string, baseUrl: string, url: string)
    requires content == "<img src=\"/a.png\">"
    ensures ImageList(content, baseUrl, url, None) == [baseUrl + "/a.png"]
  {
    assert IsImgTag(content);
    TagFirst(content, "");
    assert content + "" == content;
    assert ImgTags(content) == [content];
    assert ImageList(content, baseUrl, url, None) == [Resolve(baseUrl, url, SrcOf(content))];
    RootTagSrc(content);
    var v := "/a.png";
    assert v[..1] == "/";
    assert !StartsWith(v, "http://") && !StartsWith(v, "https://");
  }

  /** The same tag without a `src` attribute gives the base URL, a slash and the requested URL. */
  lemma NoSrcTagExample(u: string, baseUrl: string, url: string)
    requires u == "<img alt=\"x\">"
    ensures ImageList(u, baseUrl, url, None) == [baseUrl + "/" + url]
  {
    assert IsImgTag(u);
    TagFirst(u, "");
    assert u + "" == u;
    assert ImgTags(u) == [u];
    assert ImageList(u, baseUrl, url, None) == [Resolve(baseUrl, url, SrcOf(u))];
    NoSrcWithoutS(u);
    assert Resolve(baseUrl, url, "") == baseUrl + "/" + url;
  }
}
