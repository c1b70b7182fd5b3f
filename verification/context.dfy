/**
  What the host hands the plugin: the site configuration (a nested PHP
  array), the page meta (a string-keyed array), and the order in which it
  fires the lifecycle callbacks. Reading a missing key gives PHP's null,
  which string conversion turns into "" and a truth test into false.
 */
module Context {
  import opened Wrappers

  /** A configuration value as it appears in the host's settings array. */
  datatype ConfigValue =
    | Str(s: string)
    | Flag(b: bool)
    | Table(entries: map<string, ConfigValue>)

  type Config = map<string, ConfigValue>

  type PageMeta = map<string, string>

  /** PHP string conversion (`sprintf('%s', v)` or `.`). */
  function AsString(v: ConfigValue): (r: string)
    ensures v.Str? ==> r == v.s
    ensures v.Flag? ==> (r == "1" <==> v.b) && (r == "" <==> !v.b)
    ensures v.Table? ==> r == "Array"
  {
    match v
    case Str(s) => s
    case Flag(b) => if b then "1" else ""
    case Table(_) => "Array"
  }

  /** PHP truthiness of a value in a conditional. */
  predicate Truthy(v: ConfigValue)
    ensures !Truthy(v) <==> v == Str("") || v == Str("0") || v == Flag(false) || v == Table(map[])
  {
    match v
    case Str(s) => s != "" && s != "0"
    case Flag(b) => b
    case Table(m) => m != map[]
  }

  /** `$config[key]` used as a string. */
  function Setting(config: Config, key: string): (r: string)
    ensures key !in config ==> r == ""
    ensures key in config && config[key].Str? ==> r == config[key].s
  {
    if key in config then AsString(config[key]) else ""
  }

  /** `$config[key]` used as a condition. */
  predicate Enabled(config: Config, key: string)
    ensures Enabled(config, key) ==> Setting(config, key) != ""
  {
    key in config && Truthy(config[key])
  }

  /**
    `$config[section][key]` guarded by `isset`: present only when the
    section is an array holding the key (isset on a string offset named by
    a non-numeric key is false). No configuration value is null here.
   */
  function SectionSetting(config: Config, section: string, key: string): (r: Option<string>)
    ensures section !in config || !config[section].Table? ==> r.None?
    ensures r.Some? ==> key in config[section].entries && r.value == AsString(config[section].entries[key])
  {
    if section in config && config[section].Table? && key in config[section].entries then
      Some(AsString(config[section].entries[key]))
    else None
  }

  /** `$meta[key]` used as a string. */
  function MetaField(meta: PageMeta, key: string): (r: string)
    ensures key !in meta ==> r == ""
    ensures key in meta ==> r == meta[key]
  {
    if key in meta then meta[key] else ""
  }

  /** One lifecycle callback as the host fires it, with its argument. */
  datatype Event =
    | LoadConfig(config: Config)
    | ResolveUrl(url: string)
    | Load404(file: string, content: string)
    | ParseMeta(meta: PageMeta)
    | ParseContent(content: string)

  /** Some callback in `events` announced the 404 page. */
  predicate Signalled404(events: seq<Event>) {
    exists i :: 0 <= i < |events| && events[i].Load404?
  }

  /** Some callback in `events` handed over the parsed content. */
  predicate Scanned(events: seq<Event>) {
    exists i :: 0 <= i < |events| && events[i].ParseContent?
  }
}
