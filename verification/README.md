# pico-opengraph in Dafny

A model of the Pico CMS plugin that adds OpenGraph (ogp.me) `<meta>` tags
to every rendered page. The plugin ships in two variants: the newer class
`PicoATOpenGraph` and the older class `At_OpenGraph`. Both are driven by
the host through lifecycle callbacks. They do four things:

1. **Context accumulation.** They store the site configuration, the
   requested URL, the page meta and whether a 404 page was loaded. The
   404 flag is a latch that nothing resets.
2. **Image resolution.** They scan the parsed content for
   `<img[^>]+>` tags, take the first `src="…"` of each, and resolve it:
   - an absolute URL is kept as it is;
   - a site-root path gets the base URL in front;
   - anything else gets base URL + `/` + requested URL in front.
   The configured default image is then appended.
3. **Property synthesis.** They build the ordered array og:type, og:title,
   og:description, og:url, og:site_name, and og:image when there is an
   image.
4. **Injection.** They serialise each property as one tab-prefixed
   `<meta property="k" content="v" />` line and splice the block in front
   of `</head>` with `str_replace`.

Layout:

- `wrappers.dfy`: `Option`.
- `text.dfy`: the prefix test behind `at_starts_with`, ASCII case folding,
  character search, and `str_replace` (`ReplaceAll`) with its lemmas.
- `scan.dfy`: the two fixed regular expressions as scanners, each proved
  to match exactly the language of its pattern.
- `context.dfy`: configuration values with PHP string conversion and
  truthiness, defaulting lookups, and the host's callback events.
- `images.dfy`: `Resolve`, the image list, and the collecting loop.
- `opengraph.dfy`: the property array, the serialiser with a parser that
  reads it back, the meta-block loop, and `Inject`.
- `pico.dfy`: class `PicoATOpenGraph` (module `PicoPlugin`).
- `legacy.dfy`: class `AtOpenGraph` (module `LegacyPlugin`).

The two variants share everything except three rules, which each module
keeps for itself:

| rule | `PicoATOpenGraph` | `At_OpenGraph` |
|---|---|---|
| homepage | URL is `""` or `"index"` | URL is `""` |
| og:url | `base_url/url` if `rewrite_url` is truthy, else `base_url?url` | always `base_url/url` |
| default image key | `['PicoATOpenGraph']['defaultImage']` | `['opengraph_default_image']` |

Where the code differs from its comments or from a natural reading, the
model follows the code:

- `str_replace` replaces every `</head>`, not only the first one
  (`OpenGraph.InjectSplices`).
- The default image is appended even when the content has images, despite
  the comment at PicoATOpenGraph.php:167. It is `images[0]` only when no
  tag matched. `Images.UnconditionalDefaultUnobservable` proves that the
  list is empty in the same cases and has the same first image either way.
  `PicoPlugin.DefaultAppendUnobservable` and
  `LegacyPlugin.DefaultAppendUnobservable` prove that the properties, and
  so the page, are the same.
- The comment at PicoATOpenGraph.php:150 says "the first image", but the
  loop collects every image.
- The key read is `defaultImage`. The class's doc comment (line 16) shows
  `default_image`, which is never read.
- A matched tag without `src="…"` is not skipped. `$match[1]` is null, so
  the entry becomes base URL + `/` + requested URL
  (`Images.NoSrcTagExample`).

Modelling choices:

- `PHP_EOL` is `"\n"`.
- A missing configuration key or meta key reads as `""`, and as false in
  a condition.
- Configuration values are strings, booleans or nested arrays, converted
  to strings as PHP does: true is "1", false is "", an array is "Array".
- A by-reference `&$output` parameter becomes a returned value. By-reference
  inputs that the callbacks only read become plain parameters.

## Model

| member | source | states |
|---|---|---|
| `Text.AtStartsWith` | PicoATOpenGraph.php:223-231 | true iff some listed prefix is a prefix of the string; false for an empty list (the same function as at_opengraph.php:23-31) |
| `Text.ReplaceAll` | PicoATOpenGraph.php:212 | `str_replace` with one search string; an empty search string changes nothing, and a replacement at least as long as the search string never shortens the text |
| `Text.ReplaceAbsent` | PicoATOpenGraph.php:212 | `str_replace` leaves text that does not contain the search string unchanged |
| `Text.ReplaceFirst` | PicoATOpenGraph.php:212 | the text before the first occurrence is copied unchanged, that occurrence becomes the replacement, and the rest is processed the same way |
| `Text.ReplaceGrows` | PicoATOpenGraph.php:212 | when the search string occurs and the replacement is longer, the result is strictly longer |
| `Context.AsString` | PicoATOpenGraph.php:160-164 | PHP string conversion of a configuration value: a string is itself, true is "1", false is "", an array is "Array" |
| `Context.Truthy` | PicoATOpenGraph.php:192 | PHP truthiness: the falsy values are exactly "", "0", false and the empty array |
| `Context.Setting` | PicoATOpenGraph.php:192-193 | `$config[key]` as a string: "" for a missing key, a string setting as it is |
| `Context.Enabled` | PicoATOpenGraph.php:192 | `$config[key]` as a condition; a missing key is false, and an enabled setting never converts to "" |
| `Context.SectionSetting` | PicoATOpenGraph.php:168-169 | `isset($config[section][key])` and the value: absent when the section is missing or is not an array, otherwise that key's value as a string |
| `Context.MetaField` | PicoATOpenGraph.php:190-191 | `$meta[key]`: "" for a missing key, the stored value otherwise |
| `Scan.TagAt` | PicoATOpenGraph.php:148 | an anchored match of `<img[^>]+>` is a prefix in the pattern's language |
| `Scan.TagAtIsPatternMatch` | PicoATOpenGraph.php:148 | the anchored scanner returns n iff the first n characters are in the language of `<img[^>]+>` under `/i` |
| `Scan.ImgTags` | PicoATOpenGraph.php:148 | every tag `preg_match_all` returns is in the pattern's language |
| `Scan.NoTagsIffNoMatch` | PicoATOpenGraph.php:148 | no tag is found iff the pattern matches at no position of the content |
| `Scan.TagFirst` | PicoATOpenGraph.php:148-151 | a tag at the front of the content is the first tag found, and the scan resumes right after it |
| `Scan.SkipText` | PicoATOpenGraph.php:148 | a prefix at none of whose positions the pattern matches yields no tag and leaves the later tags as they were, even when a match would run on past it |
| `Scan.FirstTagIsLeftmost` | PicoATOpenGraph.php:148 | the first tag found is the match at the leftmost position where the pattern matches, and no position before it matches |
| `Scan.SrcAt` | PicoATOpenGraph.php:154 | an anchored match of `src="([^"]*)"` is in the pattern's language, with the captured group as its value |
| `Scan.SrcAtIsPatternMatch` | PicoATOpenGraph.php:154 | the anchored scanner returns v iff `src="v"` (case ignored on `src`, no `"` in v) starts the text |
| `Scan.FirstSrc` | PicoATOpenGraph.php:154 | `preg_match` of `src="([^"]*)"` over a tag; a captured value contains no `"` and fits inside the tag |
| `Scan.FirstSrcIsLeftmost` | PicoATOpenGraph.php:154-157 | `preg_match` reports the match at the leftmost position where there is one, and nothing only when no position matches |
| `Scan.SrcOf` | PicoATOpenGraph.php:154-157 | `$match[1]`: the captured value, or "" for PHP's null when nothing matched; it contains no `"` |
| `Images.Resolve` | PicoATOpenGraph.php:159-164 | `http://`/`https://` src kept verbatim; `/…` becomes base_url + src; anything else becomes base_url + "/" + url + src |
| `Images.ResolveIdempotent` | PicoATOpenGraph.php:159-164 | with an absolute base URL, every resolved image is absolute, and resolving it again changes nothing |
| `Images.ResolveExamples` | PicoATOpenGraph.php:159-164 | "/a.png" gives "http://x.com/a.png"; "b.png" under page "blog/post1" gives "http://x.com/blog/post1b.png"; an https URL is kept |
| `Images.ImageList` | PicoATOpenGraph.php:145-170 | the list `onContentParsed` stores: entry i is the resolved `src` of the i-th tag, followed by the default image when there is one |
| `Images.ShareImage` | PicoATOpenGraph.php:145-173 | the list holds one entry per tag plus the default; it is empty iff there is neither; its first entry is the first tag's image when there is a tag and the unresolved default otherwise; the default is last |
| `Images.FirstTagShared` | PicoATOpenGraph.php:148-164 | when the pattern matches at no position before a given image tag, whatever markup precedes it, that tag's resolved `src` is the image shared |
| `Images.ParagraphImageShared` | PicoATOpenGraph.php:148-164 | content `<p>` followed by an image tag shares that tag's resolved `src` |
| `Images.UnconditionalDefaultUnobservable` | PicoATOpenGraph.php:167-170 | appending the default unconditionally gives the same emptiness and the same first image as appending it only when no image was found |
| `Images.CollectImages` | PicoATOpenGraph.php:144-170 | the loop's list equals one resolved `src` per tag in document order, followed by the default image when configured |
| `Images.RootTagSrc` | PicoATOpenGraph.php:154-157 | the `src` captured from `<img src="/a.png">` is "/a.png" |
| `Images.RootTagExample` | PicoATOpenGraph.php:148-164 | content `<img src="/a.png">` yields exactly [base_url + "/a.png"] |
| `Images.NoSrcTagExample` | PicoATOpenGraph.php:154-164 | a tag without `src` yields base_url + "/" + url, not a skipped tag |
| `OpenGraph.Synthesize` | PicoATOpenGraph.php:188-200 | the keys are the five fixed ones in order, plus og:image exactly when there is an image; og:type, og:url and og:image hold their values |
| `OpenGraph.SynthesizeShape` | PicoATOpenGraph.php:188-200 | keys in the order type, title, description, url, site_name, then image only when there is an image; each key maps to its value; og:image is the first image |
| `OpenGraph.Serialize` | PicoATOpenGraph.php:203-209 | the meta block; it is empty exactly when there are no properties |
| `OpenGraph.SerializeAppend` | PicoATOpenGraph.php:206-209 | the block for a concatenation is the concatenation of the blocks |
| `OpenGraph.MetaBlock` | PicoATOpenGraph.php:203-209 | the loop builds one tab-prefixed meta line plus EOL per property, in order |
| `OpenGraph.ParseMetaLine` | PicoATOpenGraph.php:208 | a line whose key and value hold no `"` reads back as that property |
| `OpenGraph.SerializeRoundTrip` | PicoATOpenGraph.php:206-209 | a block of quote-free properties reads back as exactly the property list; no escaping is applied |
| `OpenGraph.Inject` | PicoATOpenGraph.php:212 | a document without `</head>` is returned unchanged; a document with `</head>` always grows |
| `OpenGraph.InjectSplices` | PicoATOpenGraph.php:212 | the text before the first `</head>` is untouched, then come EOL, the block and `</head>`, and every later `</head>` is treated alike |
| `PicoPlugin.OgUrl` | PicoATOpenGraph.php:192 | base_url, then `/` if `rewrite_url` is truthy and `?` otherwise, then the requested URL |
| `PicoPlugin.DefaultImage` | PicoATOpenGraph.php:168-169 | present iff `$config['PicoATOpenGraph']` is an array that holds `defaultImage`, and then that value as a string; a top-level key is not read |
| `PicoPlugin.Properties` | PicoATOpenGraph.php:188-200 | the fixed key order, plus og:image when there is an image; og:type is "website" on the homepage and "article" otherwise; og:url follows the rewrite setting; og:image is the first image |
| `PicoPlugin.PropertiesShape` | PicoATOpenGraph.php:188-200 | og:type is "website" iff homepage and "article" otherwise; title and description default to ""; og:url follows the rewrite flag; og:image is present iff there is an image, equal to the first |
| `PicoPlugin.DefaultAppendUnobservable` | PicoATOpenGraph.php:167-170 | appending the default image unconditionally gives the same property array and the same page as appending it only when no image was found |
| `PicoPlugin.PicoATOpenGraph.constructor` | PicoATOpenGraph.php:45-78 | initial state: no 404, empty config and meta, the homepage flag and URL null (false and "") |
| `PicoPlugin.PicoATOpenGraph.OnConfigLoaded` | PicoATOpenGraph.php:87-91 | stores the configuration and changes nothing else |
| `PicoPlugin.PicoATOpenGraph.OnRequestUrl` | PicoATOpenGraph.php:100-107 | stores the URL; `is_homepage` is true iff the URL is "" or "index" |
| `PicoPlugin.PicoATOpenGraph.On404ContentLoaded` | PicoATOpenGraph.php:116-120 | sets `is_error` and changes nothing else |
| `PicoPlugin.PicoATOpenGraph.OnMetaParsed` | PicoATOpenGraph.php:129-133 | stores the meta and changes nothing else |
| `PicoPlugin.PicoATOpenGraph.OnContentParsed` | PicoATOpenGraph.php:142-174 | `images` becomes the resolved tags of the content, then `['PicoATOpenGraph']['defaultImage']` when set |
| `PicoPlugin.PicoATOpenGraph.OnPageRendered` | PicoATOpenGraph.php:182-214 | after a 404 the output is byte-identical; otherwise it is the output with the serialised properties injected at every `</head>` |
| `PicoPlugin.HandleRequest` | PicoATOpenGraph.php:182-213 | for any order of callbacks, the page comes back unchanged iff a 404 was loaded at any point or the page has no `</head>` |
| `LegacyPlugin.OgUrl` | at_opengraph.php:87 | always base_url + "/" + url; there is no rewrite branch |
| `LegacyPlugin.DefaultImage` | at_opengraph.php:71-73 | present iff the top-level `opengraph_default_image` is set, and then that setting as a string |
| `LegacyPlugin.Properties` | at_opengraph.php:83-94 | the fixed key order, plus og:image when there is an image; og:type is "website" on the homepage; og:url is always base_url + "/" + url; og:image is the first image |
| `LegacyPlugin.PropertiesShape` | at_opengraph.php:83-94 | the same fixed key order; og:type "website" iff homepage; og:url without a rewrite branch; og:image present iff there is an image, equal to the first |
| `LegacyPlugin.DefaultAppendUnobservable` | at_opengraph.php:71-73 | appending the default image unconditionally gives the same property array and the same page as appending it only when no image was found |
| `LegacyPlugin.AtOpenGraph.constructor` | at_opengraph.php:10-20 | initial state: no 404, empty settings and meta, the homepage flag and URL null (false and "") |
| `LegacyPlugin.AtOpenGraph.RequestUrl` | at_opengraph.php:33-37 | stores the URL; `is_homepage` is true iff the URL is exactly "", so "index" is not the homepage |
| `LegacyPlugin.AtOpenGraph.After404LoadContent` | at_opengraph.php:39-42 | sets `is_error` and changes nothing else |
| `LegacyPlugin.AtOpenGraph.ConfigLoaded` | at_opengraph.php:44-47 | stores the settings and changes nothing else |
| `LegacyPlugin.AtOpenGraph.FileMeta` | at_opengraph.php:49-52 | stores the meta and changes nothing else |
| `LegacyPlugin.AtOpenGraph.ContentParsed` | at_opengraph.php:54-76 | `images` becomes the resolved tags of the content, in document order, then `opengraph_default_image` when set |
| `LegacyPlugin.AtOpenGraph.AfterRender` | at_opengraph.php:78-106 | after a 404 the output is unchanged; otherwise it is the output with the serialised properties injected at every `</head>` |
| `LegacyPlugin.HandleRequest` | at_opengraph.php:78-106 | for any order of callbacks, the page comes back unchanged iff a 404 was loaded at any point or the page has no `</head>` |

## Left out

- Host plumbing is not modelled: the `AbstractPicoPlugin` base class, `$enabled` and `$dependsOn` (PicoATOpenGraph.php:35-43), plugin registration, and how Pico loads, parses and renders files. Callback inputs are given strings and maps.
- Regular expressions are not modelled in general. Only the two fixed patterns are written as scanners.
- Case-insensitive matching folds ASCII letters only. This is what PCRE does with `/i` and without `/u`.
- Strings are sequences of characters, not bytes.
- PHP null, notices and numeric configuration values are not modelled. A missing key reads as "" (or false), and a configuration value is a string, a boolean or an array.
- `PicoPlugin.PicoATOpenGraph.OnPageRendered`: requires that `onContentParsed` ran first. Before that, `$this->images` is undefined in PHP, and that error path is not modelled. `LegacyPlugin.AtOpenGraph.AfterRender` and both `HandleRequest` methods carry the same precondition.
- `PHP_EOL` is fixed to a line feed. The platform-dependent value is not modelled.
- The arguments of the 404 callbacks (`$rawContent`, `$file`, `$content`) are accepted but never read, as in the source.
