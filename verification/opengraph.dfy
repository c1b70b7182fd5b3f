/**
  The OpenGraph property map, its serialisation as `<meta>` lines, and the
  splice of those lines in front of `</head>`. Both plugin variants share
  all of it; they differ only in the values they feed in.
 */
module OpenGraph {
  import opened Wrappers
  import opened Text

  /** PHP_EOL, fixed to a line feed. */
  const EOL: string := "\n"

  const HeadClose: string := "</head>"

  /** One entry of the ordered property array. */
  datatype Property = Property(key: string, value: string)

  /** The keys in insertion order, which is the order the tags are emitted in. */
  function Keys(props: seq<Property>): seq<string> {
    seq(|props|, i requires 0 <= i < |props| => props[i].key)
  }

  /** `$properties[key]`, reading the first entry with that key. */
  function Lookup(props: seq<Property>, key: string): Option<string> {
    if props == [] then None
    else if props[0].key == key then Some(props[0].value)
    else Lookup(props[1..], key)
  }

  /** `Lookup` finds an entry exactly for the keys the array holds. */
  lemma {:induction false} LookupFirst(props: seq<Property>, key: string)
    ensures Lookup(props, key).Some? <==> key in Keys(props)
    decreases |props|
  {
    if props != [] {
      LookupFirst(props[1..], key);
      assert forall i :: 1 <= i < |props| ==> props[1..][i - 1] == props[i];
      assert Keys(props) == [props[0].key] + Keys(props[1..]);
    }
  }

  /** An entry whose key no earlier entry has is what `Lookup` finds. */
  lemma {:induction false} LookupAt(props: seq<Property>, i: nat)
    requires i < |props|
    requires forall j :: 0 <= j < i ==> props[j].key != props[i].key
    ensures Lookup(props, props[i].key) == Some(props[i].value)
    decreases i
  {
    if i > 0 {
      assert props[1..][i - 1] == props[i];
      forall j | 0 <= j < i - 1 ensures props[1..][j].key != props[i].key {
        assert props[1..][j] == props[j + 1];
      }
      LookupAt(props[1..], i - 1);
    }
  }

  const CoreKeys: seq<string> := ["og:type", "og:title", "og:description", "og:url", "og:site_name"]

  /**
    The property array of `onPageRendered` / `after_render`: five fixed
    entries in a fixed order, then `og:image` with the first image, only
    when there is one.
   */
  function Synthesize(ogType: string, title: string, description: string, ogUrl: string,
                      siteName: string, images: seq<string>): (props: seq<Property>)
    ensures Keys(props) == CoreKeys + (if images == [] then [] else ["og:image"])
    ensures props[0].value == ogType && props[3].value == ogUrl
    ensures images != [] ==> props[5].value == images[0]
  {
    [ Property("og:type", ogType),
      Property("og:title", title),
      Property("og:description", description),
      Property("og:url", ogUrl),
      Property("og:site_name", siteName) ]
    + (if images == [] then [] else [Property("og:image", images[0])])
  }

  /**
    Read as a map, the synthesised array holds each value under its key,
    emits the keys in the fixed order, and holds `og:image`, equal to the
    first image, exactly when there is an image.
   */
  lemma SynthesizeShape(ogType: string, title: string, description: string, ogUrl: string,
                        siteName: string, images: seq<string>)
    ensures var props := Synthesize(ogType, title, description, ogUrl, siteName, images);
      && Keys(props) == CoreKeys + (if images == [] then [] else ["og:image"])
      && Lookup(props, "og:type") == Some(ogType)
      && Lookup(props, "og:title") == Some(title)
      && Lookup(props, "og:description") == Some(description)
      && Lookup(props, "og:url") == Some(ogUrl)
      && Lookup(props, "og:site_name") == Some(siteName)
      && Lookup(props, "og:image") == if images == [] then None else Some(images[0])
  {
    var props := Synthesize(ogType, title, description, ogUrl, siteName, images);
    assert "og:image" != "og:title" by {
      assert "og:image"[3] != "og:title"[3];
    }
    LookupAt(props, 0);
    LookupAt(props, 1);
    LookupAt(props, 2);
    LookupAt(props, 3);
    LookupAt(props, 4);
    if images == [] {
      LookupFirst(props, "og:image");
    } else {
      LookupAt(props, 5);
    }
  }

  const LineHead: string := "\t<meta property=\""
  const LineMid: string := "\" content=\""
  const LineTail: string := "\" />" + EOL

  /** One tab-prefixed `<meta property="k" content="v" />` line; nothing is escaped. */
  function MetaLine(p: Property): string {
    LineHead + p.key + LineMid + p.value + LineTail
  }

  /** The lines of all properties, in order, concatenated. */
  function Serialize(props: seq<Property>): (block: string)
    ensures block == [] <==> props == []
  {
    if props == [] then ""
    else Serialize(props[..|props| - 1]) + MetaLine(props[|props| - 1])
  }

  /** Serialising a concatenation concatenates the serialisations. */
  lemma {:induction false} SerializeAppend(a: seq<Property>, b: seq<Property>)
    ensures Serialize(a + b) == Serialize(a) + Serialize(b)
    decreases |b|
  {
    if b == [] {
      assert a + b == a;
    } else {
      var ab := a + b;
      var init := b[..|b| - 1];
      var last := b[|b| - 1];
      assert ab[..|ab| - 1] == a + init;
      assert ab[|ab| - 1] == last;
      assert Serialize(ab) == Serialize(a + init) + MetaLine(last);
      assert Serialize(b) == Serialize(init) + MetaLine(last);
      SerializeAppend(a, init);
    }
  }

  /**
    The loop of `onPageRendered` / `after_render` that concatenates one
    line per property.
   */
  method MetaBlock(props: seq<Property>) returns (meta: string)
    ensures meta == Serialize(props)
  {
    meta := "";
    for i := 0 to |props|
      invariant meta == Serialize(props[..i])
    {
      assert props[..i + 1][..i] == props[..i];
      meta := meta + MetaLine(props[i]);
    }
    assert props[..|props|] == props;
  }

  /** No `"` in key or value: the only case in which the unescaped line reads back. */
  predicate QuoteFree(p: Property) {
    '"' !in p.key && '"' !in p.value
  }

  /** Reads one line back: the property and the text after it. */
  function ParseLine(s: string): (r: Option<(Property, string)>)
    ensures r.Some? ==> |r.value.1| < |s|
  {
    if !StartsWith(s, LineHead) then None
    else
      var a := s[|LineHead|..];
      match IndexFrom(a, '"', 0)
      case None => None
      case Some(i) =>
        var b := a[i..];
        if !StartsWith(b, LineMid) then None
        else
          var c := b[|LineMid|..];
          match IndexFrom(c, '"', 0)
          case None => None
          case Some(j) =>
            var d := c[j..];
            if !StartsWith(d, LineTail) then None
            else Some((Property(a[..i], c[..j]), d[|LineTail|..]))
  }

  /** Reads a whole block of lines back. */
  function ParseBlock(s: string): Option<seq<Property>>
    decreases |s|
  {
    if s == [] then Some([])
    else
      match ParseLine(s)
      case None => None
      case Some((p, rest)) =>
        match ParseBlock(rest)
        case None => None
        case Some(ps) => Some([p] + ps)
  }

  /** A literal prefix is recognised and stripped. */
  lemma StripPrefix(p: string, rest: string)
    ensures StartsWith(p + rest, p) && (p + rest)[|p|..] == rest
  {
    assert (p + rest)[..|p|] == p;
  }

  /** A quote-free field followed by text starting with `"` ends at that quote. */
  lemma FieldEnd(x: string, tail: string)
    requires '"' !in x && tail != [] && tail[0] == '"'
    ensures IndexFrom(x + tail, '"', 0) == Some(|x|)
    ensures (x + tail)[..|x|] == x && (x + tail)[|x|..] == tail
  {
    var s := x + tail;
    assert s[|x|] == '"';
    assert forall k :: 0 <= k < |x| ==> s[k] == x[k];
    assert s[..|x|] == x;
  }

  lemma ParseMetaLine(p: Property, rest: string)
    requires QuoteFree(p)
    ensures ParseLine(MetaLine(p) + rest) == Some((p, rest))
  {
    var tail := LineTail + rest;
    var c := p.value + tail;
    var b := LineMid + c;
    var a := p.key + b;
    assert MetaLine(p) + rest == LineHead + a;
    StripPrefix(LineHead, a);
    FieldEnd(p.key, b);
    StripPrefix(LineMid, c);
    FieldEnd(p.value, tail);
    StripPrefix(LineTail, rest);
  }

  /** With no `"` in keys or values the emitted block reads back as the property list. */
  lemma {:induction false} SerializeRoundTrip(props: seq<Property>)
    requires forall i :: 0 <= i < |props| ==> QuoteFree(props[i])
    ensures ParseBlock(Serialize(props)) == Some(props)
    decreases |props|
  {
    if props != [] {
      SerializeAppend([props[0]], props[1..]);
      assert [props[0]] + props[1..] == props;
      assert Serialize([props[0]]) == MetaLine(props[0]) by {
        assert [props[0]][..0] == [];
      }
      SerializeRoundTrip(props[1..]);
      ParseMetaLine(props[0], Serialize(props[1..]));
      assert |MetaLine(props[0])| > 0;
    }
  }

  /**
    `str_replace('</head>', EOL . block . '</head>', $output)`: a document
    without `</head>` comes back unchanged, and one with it always grows.
   */
  function Inject(output: string, props: seq<Property>): (r: string)
    ensures !Contains(output, HeadClose) ==> r == output
    ensures Contains(output, HeadClose) ==> |r| > |output|
  {
    var rep := EOL + Serialize(props) + HeadClose;
    assert !Contains(output, HeadClose) ==> ReplaceAll(output, HeadClose, rep) == output by {
      if !Contains(output, HeadClose) {
        ReplaceAbsent(output, HeadClose, rep);
      }
    }
    assert Contains(output, HeadClose) ==> |ReplaceAll(output, HeadClose, rep)| > |output| by {
      if Contains(output, HeadClose) {
        ReplaceGrows(output, HeadClose, rep);
      }
    }
    ReplaceAll(output, HeadClose, rep)
  }

  /**
    `</head>` cannot overlap itself, so in `a + "</head>" + b` with no
    `</head>` inside `a` no occurrence starts before the one after `a`.
   */
  lemma NoEarlierHeadClose(a: string, b: string)
    requires !Contains(a, HeadClose)
    ensures forall i :: 0 <= i < |a| ==> !OccursAt(a + HeadClose + b, HeadClose, i)
  {
    var s := a + HeadClose + b;
    forall i | 0 <= i < |a| ensures !OccursAt(s, HeadClose, i) {
      if i + |HeadClose| <= |a| {
        assert s[i..][..|HeadClose|] == a[i..][..|HeadClose|];
        assert !OccursAt(a, HeadClose, i);
      } else {
        var k := |a| - i;
        assert s[i..][k] == s[|a|] == '<';
        assert HeadClose[k] != '<';
      }
    }
  }

  /**
    The block goes in front of the first `</head>`, after a line break;
    the text before it is untouched, and the rest of the document is
    processed the same way, so every later `</head>` gets a block too.
   */
  lemma InjectSplices(a: string, b: string, props: seq<Property>)
    requires !Contains(a, HeadClose)
    ensures Inject(a + HeadClose + b, props) == a + EOL + Serialize(props) + HeadClose + Inject(b, props)
  {
    var rep := EOL + Serialize(props) + HeadClose;
    assert Inject(a + HeadClose + b, props) == ReplaceAll(a + HeadClose + b, HeadClose, rep);
    assert Inject(b, props) == ReplaceAll(b, HeadClose, rep);
    NoEarlierHeadClose(a, b);
    ReplaceFirst(a, HeadClose, rep, b);
    assert a + rep + Inject(b, props) == a + EOL + Serialize(props) + HeadClose + Inject(b, props);
  }
}
