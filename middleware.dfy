/** The per-request settings middleware (app/ai/middleware.py): a chat
    history may carry system messages whose content is the JSON object
    `{"type": "settings", "model": ...}`; the middleware reads the model name
    from the last of them, lets the runtime override it, strips those
    messages before the model sees the history, and swaps the chat model.
    `json.loads` and the construction of the chat model are parameters of
    the model: `parse` answers `None` where `json.loads` raises, and `build`
    answers `None` where building the model raises. */
module Middleware {
  import opened Text
  import opened Values

  /** A chat message: its `type` attribute and its `content` (`VNone` when absent). */
  datatype Message = Message(kind: Value, content: Value)

  /** The chat model a request is answered with. */
  datatype ChatModel = ChatModel(name: string)

  /** `runtime.config` and `runtime.context` (`VNone` when absent). */
  datatype Runtime = Runtime(config: Value, context: Value)

  /** A system message whose content parses to a dictionary tagged
      `"type": "settings"`. */
  predicate IsSettingsMessage(m: Message, parse: string -> Option<Value>) {
    && m.kind == VStr("system")
    && m.content.VStr?
    && parse(m.content.s).Some?
    && parse(m.content.s).value.VDict?
    && GetOrNone(parse(m.content.s).value.entries, "type") == VStr("settings")
  }

  /** The model a settings message names: its `model` entry, stripped, when
      that is a non-blank string. */
  function SettingsModel(m: Message, parse: string -> Option<Value>): (r: Option<string>)
    requires IsSettingsMessage(m, parse)
    ensures r.Some? ==> r.value != "" && Strip(r.value) == r.value
  {
    NonBlankText(GetOrNone(parse(m.content.s).value.entries, "model"))
  }

  /** What `extract_settings_from_messages` answers: the last settings
      message decides, even when it names no usable model. */
  function LastSettingsModel(ms: seq<Message>, parse: string -> Option<Value>): Option<string>
    decreases |ms|
  {
    if ms == [] then None
    else if IsSettingsMessage(ms[|ms| - 1], parse) then SettingsModel(ms[|ms| - 1], parse)
    else LastSettingsModel(ms[..|ms| - 1], parse)
  }

  /** What `strip_settings_messages` answers: the history without its
      settings messages, in order. */
  function WithoutSettings(ms: seq<Message>, parse: string -> Option<Value>): seq<Message>
    decreases |ms|
  {
    if ms == [] then []
    else
      var rest := WithoutSettings(ms[..|ms| - 1], parse);
      if IsSettingsMessage(ms[|ms| - 1], parse) then rest else rest + [ms[|ms| - 1]]
  }

  /** `extract_settings_from_messages`: walk the history backwards, skip what
      is not a settings message, stop at the first one found. */
  method ExtractSettingsFromMessages(messages: seq<Message>, parse: string -> Option<Value>)
    returns (modelName: Option<string>)
    ensures modelName == LastSettingsModel(messages, parse)
  {
    modelName := None;
    var i := |messages|;
    assert messages[..i] == messages;
    while i > 0
      invariant 0 <= i <= |messages|
      invariant modelName == None
      invariant LastSettingsModel(messages, parse) == LastSettingsModel(messages[..i], parse)
      decreases i
    {
      var msg := messages[i - 1];
      assert messages[..i][..i - 1] == messages[..i - 1];
      i := i - 1;
      if msg.kind != VStr("system") {
        continue;
      }
      if !msg.content.VStr? {
        continue;
      }
      var data := parse(msg.content.s);
      if data.None? {
        continue;
      }
      if data.value.VDict? && GetOrNone(data.value.entries, "type") == VStr("settings") {
        var model := NonBlankText(GetOrNone(data.value.entries, "model"));
        if model.Some? {
          modelName := model;
        }
        break;
      }
    }
  }

  /** `strip_settings_messages`. */
  method StripSettingsMessages(messages: seq<Message>, parse: string -> Option<Value>)
    returns (cleaned: seq<Message>)
    ensures cleaned == WithoutSettings(messages, parse)
  {
    cleaned := [];
    for i := 0 to |messages|
      invariant cleaned == WithoutSettings(messages[..i], parse)
    {
      assert messages[..i + 1][..i] == messages[..i];
      var msg := messages[i];
      if msg.kind == VStr("system") && msg.content.VStr? {
        var data := parse(msg.content.s);
        if data.Some? && data.value.VDict? && GetOrNone(data.value.entries, "type") == VStr("settings") {
          continue;
        }
      }
      cleaned := cleaned + [msg];
    }
    assert messages[..|messages|] == messages;
  }

  // -------------------------------------------------------------------
  // Runtime overrides
  // -------------------------------------------------------------------

  /** The `runtime.config` step: no dictionary, no override; otherwise the
      `configurable` entry (`{}` when missing or falsy) must be a dictionary,
      or its `.get` raises and the rest of the `try` block is skipped. */
  datatype ConfigStep = ConfigRaises | ConfigName(name: Option<string>)

  function ConfigurableStep(config: Value): (r: ConfigStep)
    ensures !config.VDict? ==> r == ConfigName(None)
  {
    if !config.VDict? then ConfigName(None)
    else
      match GetOrEmpty(config.entries, "configurable")
      case VDict(conf) => ConfigName(NonBlankText(GetOrNone(conf, "model_name")))
      case _ => ConfigRaises
  }

  /** `runtime.context["model_name"]`, stripped, when usable. */
  function ContextName(context: Value): Option<string> {
    if context.VDict? then NonBlankText(GetOrNone(context.entries, "model_name")) else None
  }

  /** The `config` step reads `configurable.model_name`. */
  lemma ConfigurableStepPath()
    ensures ConfigurableStep(VDict([Entry("configurable", VDict([Entry("model_name", VStr("m"))]))]))
            == ConfigName(Some("m"))
  {
    var conf := [Entry("model_name", VStr("m"))];
    GetSingle("configurable", VDict(conf), "configurable");
    assert GetOrEmpty([Entry("configurable", VDict(conf))], "configurable") == VDict(conf);
    GetSingle("model_name", VStr("m"), "model_name");
    StripOfUnspaced("m");
  }

  /** The `config` step ignores a differently named key. */
  lemma ConfigurableStepOtherName()
    ensures ConfigurableStep(VDict([Entry("configurable", VDict([Entry("model", VStr("m"))]))]))
            == ConfigName(None)
  {
    var conf := [Entry("model", VStr("m"))];
    GetSingle("configurable", VDict(conf), "configurable");
    assert GetOrEmpty([Entry("configurable", VDict(conf))], "configurable") == VDict(conf);
    GetSingle("model", VStr("m"), "model_name");
  }

  /** A truthy `configurable` that is no dictionary makes `.get` raise. */
  lemma ConfigurableStepRaises()
    ensures ConfigurableStep(VDict([Entry("configurable", VStr("x"))])) == ConfigRaises
  {
    GetSingle("configurable", VStr("x"), "configurable");
    assert GetOrEmpty([Entry("configurable", VStr("x"))], "configurable") == VStr("x");
  }

  /** The `context` step reads `model_name`. */
  lemma ContextNamePath()
    ensures ContextName(VDict([Entry("model_name", VStr("m"))])) == Some("m")
  {
    GetSingle("model_name", VStr("m"), "model_name");
    StripOfUnspaced("m");
  }

  /** The model name `_resolve_prefs` ends with, given the one read from the
      settings messages: a usable `configurable` name replaces it, and a
      usable `context` name replaces both, unless the `configurable` step raised. */
  function ResolvedModel(fromMessages: Option<string>, rt: Runtime): Option<string> {
    match ConfigurableStep(rt.config)
    case ConfigRaises => fromMessages
    case ConfigName(c) =>
      var afterConfig := if c.Some? then c else fromMessages;
      if ContextName(rt.context).Some? then ContextName(rt.context) else afterConfig
  }

  /** The request the middleware rewrites in place. */
  class ModelRequest {
    var messages: seq<Message>
    var tools: seq<Value>
    var model: ChatModel
    var runtime: Runtime

    constructor (messages: seq<Message>, tools: seq<Value>, model: ChatModel, runtime: Runtime)
      ensures this.messages == messages && this.tools == tools
      ensures this.model == model && this.runtime == runtime
    {
      this.messages := messages;
      this.tools := tools;
      this.model := model;
      this.runtime := runtime;
    }
  }

  /** `_resolve_prefs`: the model name, reassigned as each source is read,
      and a copy of the tools. */
  method ResolvePrefs(request: ModelRequest, parse: string -> Option<Value>)
    returns (modelName: Option<string>, tools: seq<Value>)
    ensures modelName == ResolvedModel(LastSettingsModel(request.messages, parse), request.runtime)
    ensures tools == request.tools
  {
    modelName := ExtractSettingsFromMessages(request.messages, parse);
    tools := request.tools;
    var runtime := request.runtime;
    if runtime.config.VDict? {
      var cfg := GetOrEmpty(runtime.config.entries, "configurable");
      if !cfg.VDict? {
        assert ConfigurableStep(runtime.config) == ConfigRaises;
        return;
      }
      var name := NonBlankText(GetOrNone(cfg.entries, "model_name"));
      assert ConfigurableStep(runtime.config) == ConfigName(name);
      if name.Some? {
        modelName := name;
      }
    }
    if runtime.context.VDict? {
      var name := NonBlankText(GetOrNone(runtime.context.entries, "model_name"));
      if name.Some? {
        modelName := name;
      }
    }
  }

  /** The model `_apply_model_tools_messages` installs: a freshly built one
      for a non-empty name when building succeeds, the current one otherwise. */
  function NextModel(current: ChatModel, modelName: Option<string>, build: string -> Option<ChatModel>): ChatModel {
    if modelName.Some? && modelName.value != "" && build(modelName.value).Some?
    then build(modelName.value).value
    else current
  }

  /** `_apply_model_tools_messages`. */
  method ApplyModelToolsMessages(request: ModelRequest, modelName: Option<string>, tools: seq<Value>,
                                 parse: string -> Option<Value>, build: string -> Option<ChatModel>)
    modifies request
    ensures request.messages == WithoutSettings(old(request.messages), parse)
    ensures request.tools == tools
    ensures request.model == NextModel(old(request.model), modelName, build)
    ensures request.runtime == old(request.runtime)
  {
    var cleaned := StripSettingsMessages(request.messages, parse);
    var newModel := request.model;
    if modelName.Some? && modelName.value != "" {
      var built := build(modelName.value);
      if built.Some? {
        newModel := built.value;
      }
    }
    request.model := newModel;
    request.messages := cleaned;
    request.tools := tools;
  }

  /** `wrap_model_call` up to the hand-off: the request as the handler receives it. */
  method WrapModelCall(request: ModelRequest, parse: string -> Option<Value>, build: string -> Option<ChatModel>)
    modifies request
    ensures request.messages == WithoutSettings(old(request.messages), parse)
    ensures request.tools == old(request.tools)
    ensures request.model ==
              NextModel(old(request.model),
                        ResolvedModel(LastSettingsModel(old(request.messages), parse), old(request.runtime)),
                        build)
    ensures request.runtime == old(request.runtime)
    ensures LastSettingsModel(request.messages, parse) == None
  {
    var modelName, tools := ResolvePrefs(request, parse);
    ApplyModelToolsMessages(request, modelName, tools, parse, build);
    NoSettingsAfterStrip(old(request.messages), parse);
  }

  // -------------------------------------------------------------------
  // Properties
  // -------------------------------------------------------------------

  /** Stripping works message by message: it distributes over concatenation. */
  lemma {:induction false} WithoutSettingsAppend(a: seq<Message>, b: seq<Message>, parse: string -> Option<Value>)
    ensures WithoutSettings(a + b, parse) == WithoutSettings(a, parse) + WithoutSettings(b, parse)
    decreases |b|
  {
    if b == [] {
      assert a + b == a;
    } else {
      var b' := b[..|b| - 1];
      assert (a + b)[..|a + b| - 1] == a + b';
      assert (a + b)[|a + b| - 1] == b[|b| - 1];
      WithoutSettingsAppend(a, b', parse);
    }
  }

  /** What is left holds no settings message, and only messages of the input. */
  lemma {:induction false} WithoutSettingsFacts(ms: seq<Message>, parse: string -> Option<Value>)
    ensures |WithoutSettings(ms, parse)| <= |ms|
    ensures forall m :: m in WithoutSettings(ms, parse) ==> m in ms && !IsSettingsMessage(m, parse)
    ensures forall m :: m in ms && !IsSettingsMessage(m, parse) ==> m in WithoutSettings(ms, parse)
    decreases |ms|
  {
    if ms != [] {
      var init := ms[..|ms| - 1];
      WithoutSettingsFacts(init, parse);
      assert ms == init + [ms[|ms| - 1]];
    }
  }

  /** A history with no settings message passes through unchanged. */
  lemma {:induction false} WithoutSettingsKeepsPlain(ms: seq<Message>, parse: string -> Option<Value>)
    requires forall i :: 0 <= i < |ms| ==> !IsSettingsMessage(ms[i], parse)
    ensures WithoutSettings(ms, parse) == ms
    decreases |ms|
  {
    if ms != [] {
      var init := ms[..|ms| - 1];
      assert forall i :: 0 <= i < |init| ==> init[i] == ms[i];
      WithoutSettingsKeepsPlain(init, parse);
      assert init + [ms[|ms| - 1]] == ms;
    }
  }

  /** Stripping twice strips nothing more. */
  lemma WithoutSettingsIdempotent(ms: seq<Message>, parse: string -> Option<Value>)
    ensures WithoutSettings(WithoutSettings(ms, parse), parse) == WithoutSettings(ms, parse)
  {
    var w := WithoutSettings(ms, parse);
    WithoutSettingsFacts(ms, parse);
    assert forall i :: 0 <= i < |w| ==> w[i] in w;
    WithoutSettingsKeepsPlain(w, parse);
  }

  /** With no settings message in the history, there is no model name to read. */
  lemma {:induction false} NoSettingsNoModel(ms: seq<Message>, parse: string -> Option<Value>)
    requires forall i :: 0 <= i < |ms| ==> !IsSettingsMessage(ms[i], parse)
    ensures LastSettingsModel(ms, parse) == None
    decreases |ms|
  {
    if ms != [] {
      var init := ms[..|ms| - 1];
      assert forall i :: 0 <= i < |init| ==> init[i] == ms[i];
      NoSettingsNoModel(init, parse);
    }
  }

  /** Once stripped, the history names no model: the two functions agree on
      which messages are settings messages. */
  lemma NoSettingsAfterStrip(ms: seq<Message>, parse: string -> Option<Value>)
    ensures LastSettingsModel(WithoutSettings(ms, parse), parse) == None
  {
    var w := WithoutSettings(ms, parse);
    WithoutSettingsFacts(ms, parse);
    assert forall i :: 0 <= i < |w| ==> w[i] in w;
    NoSettingsNoModel(w, parse);
  }

  /** Messages after the last settings message do not matter, and what
      comes before it is never read. */
  lemma {:induction false} LastSettingsDecides(before: seq<Message>, s: Message, after: seq<Message>,
                                               parse: string -> Option<Value>)
    requires IsSettingsMessage(s, parse)
    requires forall i :: 0 <= i < |after| ==> !IsSettingsMessage(after[i], parse)
    ensures LastSettingsModel(before + [s] + after, parse) == SettingsModel(s, parse)
    decreases |after|
  {
    if after == [] {
      assert before + [s] + after == before + [s];
    } else {
      var init := after[..|after| - 1];
      var last := after[|after| - 1];
      assert before + [s] + after == (before + [s] + init) + [last];
      assert !IsSettingsMessage(last, parse);
      assert forall i :: 0 <= i < |init| ==> init[i] == after[i];
      LastSettingsDecides(before, s, init, parse);
      LastSettingsSkips(before + [s] + init, last, parse);
    }
  }

  /** A message that is not a settings message does not change the answer. */
  lemma LastSettingsSkips(ms: seq<Message>, m: Message, parse: string -> Option<Value>)
    requires !IsSettingsMessage(m, parse)
    ensures LastSettingsModel(ms + [m], parse) == LastSettingsModel(ms, parse)
  {
    assert (ms + [m])[..|ms|] == ms;
  }

  /** A usable `context` name wins over everything, unless the
      `configurable` step raised. */
  lemma ContextWins(fromMessages: Option<string>, rt: Runtime)
    requires ConfigurableStep(rt.config) != ConfigRaises && ContextName(rt.context).Some?
    ensures ResolvedModel(fromMessages, rt) == ContextName(rt.context)
  {
  }

  /** Without a `context` name, a usable `configurable` name wins over the messages. */
  lemma ConfigurableWinsOverMessages(fromMessages: Option<string>, rt: Runtime, name: string)
    requires ConfigurableStep(rt.config) == ConfigName(Some(name)) && ContextName(rt.context).None?
    ensures ResolvedModel(fromMessages, rt) == Some(name)
  {
  }

  /** A truthy `configurable` that is not a dictionary makes the `context`
      name unreachable: the messages decide. */
  lemma RaisingConfigurableHidesContext(fromMessages: Option<string>, rt: Runtime)
    requires rt.config.VDict?
    requires var c := GetOrEmpty(rt.config.entries, "configurable"); !c.VDict?
    ensures ResolvedModel(fromMessages, rt) == fromMessages
  {
  }

  /** Every name the middleware resolves is non-empty and already stripped. */
  lemma ResolvedModelTrimmed(ms: seq<Message>, rt: Runtime, parse: string -> Option<Value>)
    ensures var r := ResolvedModel(LastSettingsModel(ms, parse), rt);
            r.Some? ==> r.value != "" && Strip(r.value) == r.value
  {
    LastSettingsModelTrimmed(ms, parse);
  }

  lemma {:induction false} LastSettingsModelTrimmed(ms: seq<Message>, parse: string -> Option<Value>)
    ensures var r := LastSettingsModel(ms, parse);
            r.Some? ==> r.value != "" && Strip(r.value) == r.value
    decreases |ms|
  {
    if ms != [] && !IsSettingsMessage(ms[|ms| - 1], parse) {
      LastSettingsModelTrimmed(ms[..|ms| - 1], parse);
    }
  }
}
