/** The application settings (app/core/settings.py): the CORS origin list
    parsed from its raw string, the effective model name, and the rule that
    credentials may not be combined with the wildcard origin. Loading the
    values from the environment is outside the model: a `Settings` value
    holds them as loaded. */
module AppSettings {
  import opened Text
  import opened Values

  /** The fields of `Settings` the modelled properties read.
      `tavilyApiKeyEnv` is the `TAVILY_API_KEY` value of the environment,
      which the class as written does not declare and therefore ignores. */
  datatype Settings = Settings(
    allowOriginsRaw: string,
    allowCredentials: bool,
    defaultModelName: string,
    studioModelName: Option<string>,
    tavilyApiKeyEnv: Option<string>)

  /** `[o.strip() for o in parts if o.strip()]`. */
  function CleanParts(parts: seq<string>): (r: seq<string>)
    ensures |r| <= |parts|
    ensures forall k :: 0 <= k < |r| ==> r[k] != "" && Strip(r[k]) == r[k]
    decreases |parts|
  {
    if parts == [] then []
    else
      var o := Strip(parts[0]);
      if o != "" then StripOfUnspaced(o); [o] + CleanParts(parts[1..])
      else CleanParts(parts[1..])
  }

  /** `Settings.allow_origins`. */
  function AllowOrigins(raw: string): (r: seq<string>)
    ensures IsBlank(raw) ==> r == []
    ensures Strip(raw) == "*" ==> r == ["*"]
    ensures !IsBlank(raw) && Strip(raw) != "*" ==> r == CleanParts(SplitOn(Strip(raw), ','))
    ensures forall k :: 0 <= k < |r| ==> r[k] != "" && Strip(r[k]) == r[k] && ',' !in r[k]
  {
    var t := Strip(raw);
    if t == "" then []
    else if t == "*" then ["*"]
    else
      var parts := SplitOn(t, ',');
      CleanPartsKeepsOut(parts, ',');
      CleanParts(parts)
  }

  /** `Settings.effective_model_name`: the studio model when set and
      non-empty, the default otherwise. */
  function EffectiveModelName(s: Settings): (r: string)
    ensures s.studioModelName.Some? && s.studioModelName.value != "" ==> r == s.studioModelName.value
    ensures s.studioModelName.None? || s.studioModelName.value == "" ==> r == s.defaultModelName
  {
    match s.studioModelName
    case Some(name) => if name != "" then name else s.defaultModelName
    case None => s.defaultModelName
  }

  const CorsCredentialsMessage: string :=
    "ALLOW_CREDENTIALS=true não pode ser usado com ALLOW_ORIGINS=\"*\"."

  /** `(info.data.get("allow_origins_raw") or "").strip()`. */
  function RawOrigins(raw: Option<string>): string {
    match raw
    case Some(s) => Strip(s)
    case None => ""
  }

  /** `_validate_cors_credentials` as written: only a raw string that is
      exactly `*` after trimming is refused. */
  function ValidateCorsCredentials(v: bool, raw: Option<string>): (r: Result<bool>)
    ensures r.Err? <==> v && RawOrigins(raw) == "*"
    ensures r.Err? ==> r.message == CorsCredentialsMessage
    ensures r.Ok? ==> r.value == v
  {
    if v && RawOrigins(raw) == "*" then Err(CorsCredentialsMessage) else Ok(v)
  }

  /** The rule the validator states: credentials are refused whenever the
      parsed origin list contains the wildcard. */
  function ValidateCorsCredentialsIntended(v: bool, raw: Option<string>): (r: Result<bool>)
    ensures r.Err? <==> v && "*" in AllowOrigins(RawOrigins(raw))
    ensures r.Err? ==> r.message == CorsCredentialsMessage
    ensures r.Ok? ==> r.value == v
  {
    if v && "*" in AllowOrigins(RawOrigins(raw)) then Err(CorsCredentialsMessage) else Ok(v)
  }

  /** The origins and the credentials flag the application serves with. */
  datatype CorsPolicy = CorsPolicy(origins: seq<string>, credentials: bool)

  /** The CORS policy of loaded settings, validated by the intended rule. */
  function CorsConfig(s: Settings): (r: Result<CorsPolicy>)
    ensures r.Ok? ==> r.value.origins == AllowOrigins(s.allowOriginsRaw)
                      && r.value.credentials == s.allowCredentials
    ensures r.Ok? ==> !(r.value.credentials && "*" in r.value.origins)
    ensures r.Err? <==> s.allowCredentials && "*" in AllowOrigins(s.allowOriginsRaw)
  {
    AllowOriginsOfStripped(s.allowOriginsRaw);
    match ValidateCorsCredentialsIntended(s.allowCredentials, Some(s.allowOriginsRaw))
    case Err(m) => Err(m)
    case Ok(v) => Ok(CorsPolicy(AllowOrigins(s.allowOriginsRaw), v))
  }

  // -------------------------------------------------------------------
  // Properties
  // -------------------------------------------------------------------

  /** Whitespace around the raw string does not change the origin list. */
  lemma AllowOriginsOfStripped(s: string)
    ensures AllowOrigins(Strip(s)) == AllowOrigins(s)
  {
    var t := Strip(s);
    StripOfUnspaced(t);
    assert IsBlank(t) <==> IsBlank(s);
  }

  /** A character absent from every part is absent from every cleaned part. */
  lemma {:induction false} CleanPartsKeepsOut(parts: seq<string>, c: char)
    requires forall k :: 0 <= k < |parts| ==> c !in parts[k]
    ensures forall k :: 0 <= k < |CleanParts(parts)| ==> c !in CleanParts(parts)[k]
    decreases |parts|
  {
    if parts != [] {
      var tail := parts[1..];
      assert forall k :: 0 <= k < |tail| ==> tail[k] == parts[k + 1];
      CleanPartsKeepsOut(tail, c);
      var o := Strip(parts[0]);
      if c in o {
        StripChars(parts[0], c);
      }
      var r := CleanParts(parts);
      forall k | 0 <= k < |r| ensures c !in r[k] {
        if o != "" {
          assert r == [o] + CleanParts(tail);
          if k > 0 { assert r[k] == CleanParts(tail)[k - 1]; }
        }
      }
    }
  }

  /** An origin is listed exactly when it is the non-empty trimmed form of some part. */
  lemma {:induction false} CleanPartsIff(parts: seq<string>, o: string)
    ensures o in CleanParts(parts) <==> o != "" && exists j :: 0 <= j < |parts| && Strip(parts[j]) == o
    decreases |parts|
  {
    if parts != [] {
      var tail := parts[1..];
      CleanPartsIff(tail, o);
      assert forall j :: 1 <= j < |parts| ==> parts[j] == tail[j - 1];
      if o != "" && exists j :: 0 <= j < |parts| && Strip(parts[j]) == o {
        var j :| 0 <= j < |parts| && Strip(parts[j]) == o;
        if j > 0 {
          assert Strip(tail[j - 1]) == o;
        }
      }
    }
  }

  /** Parts already trimmed and non-empty are kept as they are. */
  lemma {:induction false} CleanPartsOfTrimmed(parts: seq<string>)
    requires forall k :: 0 <= k < |parts| ==> parts[k] != "" && Strip(parts[k]) == parts[k]
    ensures CleanParts(parts) == parts
    decreases |parts|
  {
    if parts != [] {
      var tail := parts[1..];
      assert forall k :: 0 <= k < |tail| ==> tail[k] == parts[k + 1];
      CleanPartsOfTrimmed(tail);
      assert [parts[0]] + tail == parts;
    }
  }

  /** The wildcard case is what the general path would answer anyway. */
  lemma WildcardCaseAgrees()
    ensures CleanParts(SplitOn("*", ',')) == AllowOrigins("*")
  {
    assert ',' !in "*";
    assert SplitOn("*", ',') == ["*"];
    assert Strip("*") == "*" by { StripOfUnspaced("*"); }
  }

  /** Joining trimmed, comma-free origins with commas and parsing the result
      gives the origins back. */
  lemma AllowOriginsOfJoin(origins: seq<string>)
    requires |origins| >= 1
    requires forall k :: 0 <= k < |origins| ==> origins[k] != "" && Strip(origins[k]) == origins[k]
    requires forall k :: 0 <= k < |origins| ==> ',' !in origins[k]
    ensures AllowOrigins(JoinWith(origins, [','])) == origins
  {
    var j := JoinWith(origins, [',']);
    JoinedUnspaced(origins);
    StripOfUnspaced(j);
    assert Strip(j) == j && j != "";
    SplitJoin(origins, ',');
    assert SplitOn(j, ',') == origins;
    if j == "*" {
      assert ',' !in j;
      assert SplitOn(j, ',') == [j];
    } else {
      CleanPartsOfTrimmed(origins);
      assert AllowOrigins(j) == CleanParts(SplitOn(j, ','));
    }
  }

  /** Refusing the wildcard list is the intended rule, which the validator
      as written only enforces for the raw string `*` itself. */
  lemma AsWrittenRefusalIsIntended(v: bool, raw: Option<string>)
    ensures ValidateCorsCredentials(v, raw).Err? ==> ValidateCorsCredentialsIntended(v, raw).Err?
  {
    if v && RawOrigins(raw) == "*" {
      StripOfUnspaced("*");
      assert IsBlank("*") == false by { assert !IsSpace("*"[0]); }
    }
  }

  /** `ALLOW_ORIGINS="*,https://a.b"` with credentials passes the validator
      as written, although the origin list it yields contains `*`. */
  lemma WildcardInListPasses()
    ensures ValidateCorsCredentials(true, Some("*,https://a.b")).Ok?
    ensures "*" in AllowOrigins("*,https://a.b")
    ensures ValidateCorsCredentialsIntended(true, Some("*,https://a.b")).Err?
  {
    var raw := "*,https://a.b";
    assert !IsSpace(raw[0]) && !IsSpace(raw[|raw| - 1]);
    StripOfUnspaced(raw);
    assert raw != "*";
    assert !IsBlank(raw) by { assert !IsSpace(raw[0]); }
    var parts := SplitOn(raw, ',');
    assert IndexOf(raw, ',') == 1;
    assert parts[0] == "*";
    CleanPartsIff(parts, "*");
    StripOfUnspaced("*");
  }
}
