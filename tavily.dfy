/** The API-key lookup of the web-search tool (app/ai/tools/tavily_search.py):
    the key comes from `runtime["config"]["configurable"]`, then from
    `runtime["context"]`, then from the settings, each only when it is a
    non-blank string, and is returned stripped. The search call itself is
    an effect outside the model. */
module Tavily {
  import opened Text
  import opened Values
  import opened AppSettings

  const MissingKeyMessage: string := "TAVILY_API_KEY não configurada (Settings ou runtime)."

  /** `runtime.get(k, {}) or {}` on a dictionary runtime. */
  function Section(runtime: Value, k: string): Value {
    if runtime.VDict? then GetOrEmpty(runtime.entries, k) else VNone
  }

  /** Branch 1: `runtime["config"]["configurable"]["tavily_api_key"]`. */
  function ConfigurableKey(runtime: Value): (r: Option<string>)
    ensures !runtime.VDict? ==> r.None?
  {
    var cfg := Section(runtime, "config");
    if !cfg.VDict? then None
    else
      var conf := GetOrEmpty(cfg.entries, "configurable");
      if !conf.VDict? then None
      else NonBlankText(GetOrNone(conf.entries, "tavily_api_key"))
  }

  /** Branch 2: `runtime["context"]["tavily_api_key"]`. */
  function ContextKey(runtime: Value): (r: Option<string>)
    ensures !runtime.VDict? ==> r.None?
  {
    var ctx := Section(runtime, "context");
    if !ctx.VDict? then None
    else NonBlankText(GetOrNone(ctx.entries, "tavily_api_key"))
  }

  /** `_resolve_tavily_key`, with `getattr(settings, "tavily_api_key", None)`
      passed in as `settingsKey`. */
  function ResolveTavilyKey(runtime: Value, settingsKey: Value): (r: Result<string>)
    ensures r.Ok? ==> r.value != "" && Strip(r.value) == r.value
    ensures r.Err? <==> ConfigurableKey(runtime).None? && ContextKey(runtime).None? &&
                        NonBlankText(settingsKey).None?
    ensures r.Err? ==> r.message == MissingKeyMessage
  {
    match ConfigurableKey(runtime)
    case Some(k) => Ok(k)
    case None =>
      match ContextKey(runtime)
      case Some(k) => Ok(k)
      case None =>
        match NonBlankText(settingsKey)
        case Some(k) => Ok(k)
        case None => Err(MissingKeyMessage)
  }

  /** `getattr(settings, "tavily_api_key", None)` as written: `Settings`
      declares no such field, so the lookup always gives `None`. */
  function SettingsKeyAsWritten(s: Settings): Value {
    VNone
  }

  /** The settings value the fallback is meant to read: the `TAVILY_API_KEY`
      of the environment, once `Settings` declares it. */
  function SettingsKey(s: Settings): (r: Value)
    ensures s.tavilyApiKeyEnv.Some? ==> r == VStr(s.tavilyApiKeyEnv.value)
    ensures s.tavilyApiKeyEnv.None? ==> r == VNone
  {
    match s.tavilyApiKeyEnv
    case Some(k) => VStr(k)
    case None => VNone
  }

  /** The key the search tool is created with. */
  function TavilyKey(runtime: Value, s: Settings): (r: Result<string>)
    ensures r.Ok? ==> r.value != "" && Strip(r.value) == r.value
    ensures r.Err? <==> ConfigurableKey(runtime).None? && ContextKey(runtime).None? &&
                        (s.tavilyApiKeyEnv.None? || IsBlank(s.tavilyApiKeyEnv.value))
  {
    ResolveTavilyKey(runtime, SettingsKey(s))
  }

  // -------------------------------------------------------------------
  // Properties
  // -------------------------------------------------------------------

  /** Branch 1 reads `config.configurable.tavily_api_key`. */
  lemma ConfigurableKeyPath()
    ensures ConfigurableKey(VDict([Entry("config", VDict([Entry("configurable",
              VDict([Entry("tavily_api_key", VStr("k"))]))]))])) == Some("k")
  {
    var key := [Entry("tavily_api_key", VStr("k"))];
    var conf := [Entry("configurable", VDict(key))];
    GetSingle("config", VDict(conf), "config");
    assert Section(VDict([Entry("config", VDict(conf))]), "config") == VDict(conf);
    GetSingle("configurable", VDict(key), "configurable");
    assert GetOrEmpty(conf, "configurable") == VDict(key);
    GetSingle("tavily_api_key", VStr("k"), "tavily_api_key");
    StripOfUnspaced("k");
  }

  /** Branch 1 ignores a differently named key. */
  lemma ConfigurableKeyOtherName()
    ensures ConfigurableKey(VDict([Entry("config", VDict([Entry("configurable",
              VDict([Entry("api_key", VStr("k"))]))]))])) == None
  {
    var key := [Entry("api_key", VStr("k"))];
    var conf := [Entry("configurable", VDict(key))];
    GetSingle("config", VDict(conf), "config");
    assert Section(VDict([Entry("config", VDict(conf))]), "config") == VDict(conf);
    GetSingle("configurable", VDict(key), "configurable");
    assert GetOrEmpty(conf, "configurable") == VDict(key);
    GetSingle("api_key", VStr("k"), "tavily_api_key");
  }

  /** Branch 2 reads `context.tavily_api_key`. */
  lemma ContextKeyPath()
    ensures ContextKey(VDict([Entry("context", VDict([Entry("tavily_api_key", VStr("k"))]))])) == Some("k")
  {
    GetSingle("context", VDict([Entry("tavily_api_key", VStr("k"))]), "context");
    GetSingle("tavily_api_key", VStr("k"), "tavily_api_key");
    StripOfUnspaced("k");
  }

  /** A usable configurable key wins over everything else. */
  lemma ConfigurableKeyWins(runtime: Value, settingsKey: Value, key: string)
    requires ConfigurableKey(runtime) == Some(key)
    ensures ResolveTavilyKey(runtime, settingsKey) == Ok(key)
  {
  }

  /** The context key is read only when the configurable one is absent or blank. */
  lemma ContextKeyNext(runtime: Value, settingsKey: Value, key: string)
    requires ConfigurableKey(runtime).None? && ContextKey(runtime) == Some(key)
    ensures ResolveTavilyKey(runtime, settingsKey) == Ok(key)
  {
  }

  /** A runtime that is not a dictionary leaves only the settings. */
  lemma NonDictRuntimeUsesSettings(runtime: Value, settingsKey: Value)
    requires !runtime.VDict?
    ensures ResolveTavilyKey(runtime, settingsKey) ==
              (if NonBlankText(settingsKey).Some? then Ok(NonBlankText(settingsKey).value)
               else Err(MissingKeyMessage))
  {
  }

  /** The settings key is the last fallback, returned stripped. */
  lemma SettingsKeyLast(runtime: Value, settingsKey: string)
    requires ConfigurableKey(runtime).None? && ContextKey(runtime).None?
    requires !IsBlank(settingsKey)
    ensures ResolveTavilyKey(runtime, VStr(settingsKey)) == Ok(Strip(settingsKey))
  {
  }

  /** With `TAVILY_API_KEY="k"` in the environment and no runtime, the
      lookup as written raises, while the settings fallback yields `k`. */
  lemma SettingsFallbackUnreachable(s: Settings)
    requires s.tavilyApiKeyEnv == Some("k")
    ensures ResolveTavilyKey(VNone, SettingsKeyAsWritten(s)).Err?
    ensures TavilyKey(VNone, s) == Ok("k")
  {
    assert !IsBlank("k") by { assert !IsSpace("k"[0]); }
    StripOfUnspaced("k");
  }

  /** With the corrected settings lookup, a non-blank `TAVILY_API_KEY` is
      used, stripped, whenever the runtime supplies no key. */
  lemma SettingsKeyServes(runtime: Value, s: Settings, k: string)
    requires ConfigurableKey(runtime).None? && ContextKey(runtime).None?
    requires s.tavilyApiKeyEnv == Some(k) && !IsBlank(k)
    ensures TavilyKey(runtime, s) == Ok(Strip(k))
  {
  }

  /** As written, only the runtime can supply the key. */
  lemma AsWrittenNeedsRuntime(runtime: Value, s: Settings)
    ensures ResolveTavilyKey(runtime, SettingsKeyAsWritten(s)).Ok? <==>
              ConfigurableKey(runtime).Some? || ContextKey(runtime).Some?
  {
  }
}
