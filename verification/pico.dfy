/**
  The newer variant, class `PicoATOpenGraph`: the host's lifecycle
  callbacks fill in the request context, `onContentParsed` collects the
  images, and `onPageRendered` splices the OpenGraph tags into the page
  unless a 404 page was loaded.
 */
module PicoPlugin {
  import opened Wrappers
  import opened Text
  import opened Context
  import opened Images
  import opened OpenGraph

  /**
    og:url: with `rewrite_url` set, the base URL, a slash and the requested
    URL; otherwise the base URL, a question mark and the requested URL.
   */
  function OgUrl(config: Config, url: string): (r: string)
    ensures var base := Setting(config, "base_url");
      && |r| == |base| + 1 + |url|
      && r[..|base|] == base
      && r[|base|] == (if Enabled(config, "rewrite_url") then '/' else '?')
      && r[|base| + 1..] == url
  {
    if Enabled(config, "rewrite_url") then Setting(config, "base_url") + "/" + url
    else Setting(config, "base_url") + "?" + url
  }

  /** `$config['PicoATOpenGraph']['defaultImage']`, when set. */
  function DefaultImage(config: Config): (r: Option<string>)
    ensures r.Some? <==> "PicoATOpenGraph" in config && config["PicoATOpenGraph"].Table?
                         && "defaultImage" in config["PicoATOpenGraph"].entries
    ensures r.Some? ==> r.value == AsString(config["PicoATOpenGraph"].entries["defaultImage"])
  {
    SectionSetting(config, "PicoATOpenGraph", "defaultImage")
  }

  /** The property array built from the stored state. */
  function Properties(isHomepage: bool, meta: PageMeta, config: Config, url: string, images: seq<string>): (props: seq<Property>)
    ensures Keys(props) == CoreKeys + (if images == [] then [] else ["og:image"])
    ensures props[0].value == (if isHomepage then "website" else "article")
    ensures props[3].value == OgUrl(config, url)
    ensures images != [] ==> props[5].value == images[0]
  {
    Synthesize(if isHomepage then "website" else "article",
               MetaField(meta, "title"), MetaField(meta, "description"),
               OgUrl(config, url), Setting(config, "site_title"), images)
  }

  /**
    The page is a "website" exactly on the homepage and an "article"
    elsewhere; title, description and site name are read with "" for a
    missing key; og:url follows the rewrite setting; og:image is the first
    image and is there only when there is an image.
   */
  lemma PropertiesShape(isHomepage: bool, meta: PageMeta, config: Config, url: string, images: seq<string>)
    ensures var props := Properties(isHomepage, meta, config, url, images);
      && Keys(props) == CoreKeys + (if images == [] then [] else ["og:image"])
      && (Lookup(props, "og:type") == Some("website") <==> isHomepage)
      && (Lookup(props, "og:type") == Some("article") <==> !isHomepage)
      && Lookup(props, "og:title") == Some(if "title" in meta then meta["title"] else "")
      && Lookup(props, "og:description") == Some(if "description" in meta then meta["description"] else "")
      && Lookup(props, "og:url") == Some(
           if Enabled(config, "rewrite_url") then Setting(config, "base_url") + "/" + url
           else Setting(config, "base_url") + "?" + url)
      && Lookup(props, "og:site_name") == Some(Setting(config, "site_title"))
      && (Lookup(props, "og:image").Some? <==> images != [])
      && (images != [] ==> Lookup(props, "og:image") == Some(images[0]))
  {
    SynthesizeShape(if isHomepage then "website" else "article",
                    MetaField(meta, "title"), MetaField(meta, "description"),
                    OgUrl(config, url), Setting(config, "site_title"), images);
  }

  /**
    Appending the default image unconditionally gives the same
    properties, and so the same page, as appending it only when the
    content has no image.
   */
  lemma DefaultAppendUnobservable(isHomepage: bool, meta: PageMeta, config: Config, url: string,
                                  content: string, output: string)
    ensures var base := Setting(config, "base_url");
      var always := Properties(isHomepage, meta, config, url, ImageList(content, base, url, DefaultImage(config)));
      var fallback := Properties(isHomepage, meta, config, url, FallbackImageList(content, base, url, DefaultImage(config)));
      always == fallback && Inject(output, always) == Inject(output, fallback)
  {
    UnconditionalDefaultUnobservable(content, Setting(config, "base_url"), url, DefaultImage(config));
  }

  class PicoATOpenGraph {
    var isHomepage: bool
    var isError: bool
    var config: Config
    var meta: PageMeta
    var url: string
    var images: seq<string>
    /** Whether `onContentParsed` has run; until then `$this->images` is undefined. */
    ghost var scanned: bool

    /** PHP's initial state: `is_error` false, `config` and `meta` empty, the rest null. */
    constructor ()
      ensures !isHomepage && !isError && config == map[] && meta == map[] && url == ""
      ensures images == [] && !scanned
    {
      isHomepage, isError := false, false;
      config, meta, url := map[], map[], "";
      images := [];
      scanned := false;
    }

    /** Keeps a copy of the site configuration. */
    method OnConfigLoaded(config: Config)
      modifies this`config
      ensures this.config == config
    {
      this.config := config;
    }

    /** Keeps the requested URL; the homepage is the empty URL or "index". */
    method OnRequestUrl(url: string)
      modifies this`url, this`isHomepage
      ensures this.url == url
      ensures isHomepage <==> url == "" || url == "index"
    {
      this.url := url;
      isHomepage := url == "" || url == "index";
    }

    /** Latches the 404 flag; the raw content is not looked at. */
    method On404ContentLoaded(rawContent: string)
      modifies this`isError
      ensures isError
    {
      isError := true;
    }

    /** Keeps a copy of the page meta. */
    method OnMetaParsed(meta: PageMeta)
      modifies this`meta
      ensures this.meta == meta
    {
      this.meta := meta;
    }

    /** Collects the page's images against the stored base URL and requested URL. */
    method OnContentParsed(content: string)
      modifies this`images, this`scanned
      ensures scanned
      ensures images == ImageList(content, Setting(config, "base_url"), url, DefaultImage(config))
    {
      images := CollectImages(content, Setting(config, "base_url"), url, DefaultImage(config));
      scanned := true;
    }

    /**
      The new output: untouched after a 404, otherwise every `</head>`
      preceded by a line break and one meta line per property.
     */
    method OnPageRendered(output: string) returns (result: string)
      requires scanned
      ensures isError ==> result == output
      ensures !isError ==> result == Inject(output, Properties(isHomepage, meta, config, url, images))
    {
      result := output;
      if !isError {
        var props := Properties(isHomepage, meta, config, url, images);
        var block := MetaBlock(props);
        result := ReplaceAll(output, HeadClose, EOL + block + HeadClose);
      }
    }
  }

  /**
    One request: a fresh plugin receives the callbacks in the order the
    host fires them and then renders `output`. The page comes back
    unchanged exactly when a 404 page was loaded at any point or the page
    has no `</head>`.
   */
  method HandleRequest(events: seq<Event>, output: string) returns (result: string)
    requires Scanned(events)
    ensures result == output <==> Signalled404(events) || !Contains(output, HeadClose)
  {
    var plugin := new PicoATOpenGraph();
    for i := 0 to |events|
      invariant plugin.isError <==> Signalled404(events[..i])
      invariant plugin.scanned <==> Scanned(events[..i])
    {
      assert events[..i + 1] == events[..i] + [events[i]];
      match events[i]
      case LoadConfig(c) => plugin.OnConfigLoaded(c);
      case ResolveUrl(u) => plugin.OnRequestUrl(u);
      case Load404(_, raw) => plugin.On404ContentLoaded(raw);
      case ParseMeta(m) => plugin.OnMetaParsed(m);
      case ParseContent(c) => plugin.OnContentParsed(c);
    }
    assert events[..|events|] == events;
    result := plugin.OnPageRendered(output);
  }
}
