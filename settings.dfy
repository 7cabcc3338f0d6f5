/** The manager's persisted configuration: a flat JSON object of settings with
    a default for every key the manager reads. */
module Settings {
  import opened PyText

  /** A JSON scalar as json.load returns it. */
  datatype Value = VNull | VBool(b: bool) | VInt(i: int) | VStr(s: string)

  type Config = map<string, Value>

  /** The defaults of load_config, one per setting. */
  function Defaults(): Config {
    map[
      "last_server_version" := VStr("0.0.0"),
      "dark_mode" := VBool(true),
      "enable_logging" := VBool(true),
      "check_updates" := VBool(true),
      "auto_start" := VBool(false),
      "enable_backups" := VBool(true),
      "enable_discord" := VBool(false),
      "discord_webhook" := VStr(""),
      "enable_auto_restart" := VBool(true),
      "enable_schedule" := VBool(false),
      "restart_interval" := VInt(12),
      "server_memory" := VStr("8G"),
      "max_backups" := VInt(3),
      "manager_auto_update" := VBool(true)
    ]
  }

  /** dict.get(key, default). */
  function Get(c: Config, key: string, default: Value): Value {
    if key in c then c[key] else default
  }

  /** Python truthiness of a JSON scalar. */
  predicate Truthy(v: Value) {
    match v
    case VNull => false
    case VBool(b) => b
    case VInt(i) => i != 0
    case VStr(s) => s != ""
  }

  /** int(v): None where Python raises. */
  function PyInt(v: Value): Option<int> {
    match v
    case VNull => None
    case VBool(b) => Some(if b then 1 else 0)
    case VInt(i) => Some(i)
    case VStr(s) => ParseInt(s)
  }

  /** str(v), as an f-string renders it. */
  function PyStr(v: Value): string {
    match v
    case VNull => "None"
    case VBool(b) => if b then "True" else "False"
    case VInt(i) => IntToStr(i)
    case VStr(s) => s
  }

  /** load_config: the defaults updated with the object read from the file
      (None when the file is missing or cannot be parsed). */
  function LoadConfig(file: Option<Config>): (cfg: Config)
    ensures Defaults().Keys <= cfg.Keys
    ensures file.None? ==> cfg == Defaults()
    ensures file.Some? ==> cfg.Keys == Defaults().Keys + file.value.Keys
    ensures forall k :: k in cfg ==>
      cfg[k] == (if file.Some? && k in file.value then file.value[k] else Defaults()[k])
  {
    match file
    case None => Defaults()
    case Some(m) => Defaults() + m
  }

  /** A configuration that save_config wrote (it holds every default key)
      loads back unchanged. */
  lemma SaveLoadRoundTrip(cfg: Config)
    requires Defaults().Keys <= cfg.Keys
    ensures LoadConfig(Some(cfg)) == cfg
  {
    var loaded := LoadConfig(Some(cfg));
    assert loaded.Keys == cfg.Keys;
  }

  /** A value read for a setting is never replaced by its default, and the
      loaded configuration answers every dict.get with a present key. */
  lemma LoadedValueWins(file: Config, key: string, default: Value)
    requires key in file
    ensures Get(LoadConfig(Some(file)), key, default) == file[key]
  {
  }
}
