/**
  The older variant, class `At_OpenGraph`: the same pipeline under the
  older callback names. It differs from the newer one in three rules only:
  the homepage is the empty URL alone, og:url always joins the base URL
  and the requested URL with a slash, and the default image is the
  top-level setting `opengraph_default_image`.
 */
module LegacyPlugin {
  import opened Wrappers
  import opened Text
  import opened Context
  import opened Images
  import opened OpenGraph

  /** og:url: the base URL, a slash and the requested URL, whatever the rewrite setting. */
  function OgUrl(settings: Config, url: string): (r: string)
    ensures var base := Setting(settings, "base_url");
      && |r| == |base| + 1 + |url|
      && r[..|base|] == base
      && r[|base|] == '/'
      && r[|base| + 1..] == url
  {
    Setting(settings, "base_url") + "/" + url
  }

  /** `$settings['opengraph_default_image']`, when set. */
  function DefaultImage(settings: Config): (r: Option<string>)
    ensures r.Some? <==> "opengraph_default_image" in settings
    ensures r.Some? ==> r.value == Setting(settings, "opengraph_default_image")
  {
    if "opengraph_default_image" in settings then Some(AsString(settings["opengraph_default_image"]))
    else None
  }

  /** The property array built from the stored state. */
  function Properties(isHomepage: bool, meta: PageMeta, settings: Config, url: string, images: seq<string>): (props: seq<Property>)
    ensures Keys(props) == CoreKeys + (if images == [] then [] else ["og:image"])
    ensures props[0].value == (if isHomepage then "website" else "article")
    ensures props[3].value == OgUrl(settings, url)
    ensures images != [] ==> props[5].value == images[0]
  {
    Synthesize(if isHomepage then "website" else "article",
               MetaField(meta, "title"), MetaField(meta, "description"),
               OgUrl(settings, url), Setting(settings, "site_title"), images)
  }

  /**
    The page is a "website" exactly on the homepage; og:url ignores any
    rewrite setting; og:image is the first image and is there only when
    there is an image.
   */
  lemma PropertiesShape(isHomepage: bool, meta: PageMeta, settings: Config, url: string, images: seq<string>)
    ensures var props := Properties(isHomepage, meta, settings, url, images);
      && Keys(props) == CoreKeys + (if images == [] then [] else ["og:image"])
      && (Lookup(props, "og:type") == Some("website") <==> isHomepage)
      && (Lookup(props, "og:type") == Some("article") <==> !isHomepage)
      && Lookup(props, "og:title") == Some(if "title" in meta then meta["title"] else "")
      && Lookup(props, "og:description") == Some(if "description" in meta then meta["description"] else "")
      && Lookup(props, "og:url") == Some(Setting(settings, "base_url") + "/" + url)
      && Lookup(props, "og:site_name") == Some(Setting(settings, "site_title"))
      && (Lookup(props, "og:image").Some? <==> images != [])
      && (images != [] ==> Lookup(props, "og:image") == Some(images[0]))
  {
    SynthesizeShape(if isHomepage then "website" else "article",
                    MetaField(meta, "title"), MetaField(meta, "description"),
                    OgUrl(settings, url), Setting(settings, "site_title"), images);
  }

  /**
    Appending the default image unconditionally gives the same
    properties, and so the same page, as appending it only when the
    content has no image.
   */
  lemma DefaultAppendUnobservable(isHomepage: bool, meta: PageMeta, settings: Config, url: string,
                                  content: string, output: string)
    ensures var base := Setting(settings, "base_url");
      var always := Properties(isHomepage, meta, settings, url, ImageList(content, base, url, DefaultImage(settings)));
      var fallback := Properties(isHomepage, meta, settings, url, FallbackImageList(content, base, url, DefaultImage(settings)));
      always == fallback && Inject(output, always) == Inject(output, fallback)
  {
    UnconditionalDefaultUnobservable(content, Setting(settings, "base_url"), url, DefaultImage(settings));
  }

  class AtOpenGraph {
    var isHomepage: bool
    var isError: bool
    var settings: Config
    var meta: PageMeta
    var url: string
    var images: seq<string>
    /** Whether `content_parsed` has run; until then `$this->images` is undefined. */
    ghost var scanned: bool

    /** PHP's initial state: `is_error` false, `settings` and `meta` empty, the rest null. */
    constructor ()
      ensures !isHomepage && !isError && settings == map[] && meta == map[] && url == ""
      ensures images == [] && !scanned
    {
      isHomepage, isError := false, false;
      settings, meta, url := map[], map[], "";
      images := [];
      scanned := false;
    }

    /** Keeps the requested URL; only the empty URL is the homepage. */
    method RequestUrl(url: string)
      modifies this`url, this`isHomepage
      ensures this.url == url
      ensures isHomepage <==> url == ""
    {
      this.url := url;
      isHomepage := url == "";
    }

    /** Latches the 404 flag; the file name and content are not looked at. */
    method After404LoadContent(file: string, content: string)
      modifies this`isError
      ensures isError
    {
      isError := true;
    }

    /** Keeps a copy of the settings. */
    method ConfigLoaded(settings: Config)
      modifies this`settings
      ensures this.settings == settings
    {
      this.settings := settings;
    }

    /** Keeps a copy of the page meta. */
    method FileMeta(meta: PageMeta)
      modifies this`meta
      ensures this.meta == meta
    {
      this.meta := meta;
    }

    /** Collects the page's images against the stored base URL and requested URL. */
    method ContentParsed(content: string)
      modifies this`images, this`scanned
      ensures scanned
      ensures images == ImageList(content, Setting(settings, "base_url"), url, DefaultImage(settings))
    {
      images := CollectImages(content, Setting(settings, "base_url"), url, DefaultImage(settings));
      scanned := true;
    }

    /**
      The new output: untouched after a 404, otherwise every `</head>`
      preceded by a line break and one meta line per property.
     */
    method AfterRender(output: string) returns (result: string)
      requires scanned
      ensures isError ==> result == output
      ensures !isError ==> result == Inject(output, Properties(isHomepage, meta, settings, url, images))
    {
      result := output;
      if !isError {
        var props := Properties(isHomepage, meta, settings, url, images);
        var block := MetaBlock(props);
        result := ReplaceAll(output, HeadClose, EOL + block + HeadClose);
      }
    }
  }

  /**
    One request: a fresh plugin receives the callbacks in the order the
    host fires them and then renders `output`. The page comes back
    unchanged exactly when a 404 page was loaded at any point or the page
    has no `</head>`.
   */
  method HandleRequest(events: seq<Event>, output: string) returns (result: string)
    requires Scanned(events)
    ensures result == output <==> Signalled404(events) || !Contains(output, HeadClose)
  {
    var plugin := new AtOpenGraph();
    for i := 0 to |events|
      invariant plugin.isError <==> Signalled404(events[..i])
      invariant plugin.scanned <==> Scanned(events[..i])
    {
      assert events[..i + 1] == events[..i] + [events[i]];
      match events[i]
      case LoadConfig(c) => plugin.ConfigLoaded(c);
      case ResolveUrl(u) => plugin.RequestUrl(u);
      case Load404(f, c) => plugin.After404LoadContent(f, c);
      case ParseMeta(m) => plugin.FileMeta(m);
      case ParseContent(c) => plugin.ContentParsed(c);
    }
    assert events[..|events|] == events;
    result := plugin.AfterRender(output);
  }
}
