/**
 The settings document of internal/claude/settings.go: the JSON values it
 holds, the operations on its `env` object, and the split of the top-level
 object into six known fields and everything else.

 The document is taken as already parsed: JSON text decoding and encoding
 are outside the model. A parsed number is a Go float64 and is kept opaque;
 an `int` only enters the document through ApplyProvider.
 */
module Settings {
  import opened Results
  import opened Providers
  import Decimal

  /** An IEEE-754 double, carried by its bit pattern and never interpreted. */
  datatype Float64 = Float64(bits: bv64)

  /** The dynamic values a `map[string]interface{}` holds after decoding or after ApplyProvider. */
  datatype JsonValue =
    | JNull
    | JBool(b: bool)
    | JString(str: string)
    | JInt(i: int)
    | JFloat(f: Float64)
    | JArray(items: seq<JsonValue>)
    | JObject(fields: map<string, JsonValue>)

  type Env = map<string, JsonValue>

  // ---------------------------------------------------------------------------
  // Managed keys
  // ---------------------------------------------------------------------------

  const BaseUrlKey := "ANTHROPIC_BASE_URL"
  const AuthTokenKey := "ANTHROPIC_AUTH_TOKEN"
  const TimeoutKey := "API_TIMEOUT_MS"
  const ModelKey := "ANTHROPIC_MODEL"
  const SmallModelKey := "ANTHROPIC_SMALL_FAST_MODEL"
  const SonnetModelKey := "ANTHROPIC_DEFAULT_SONNET_MODEL"
  const OpusModelKey := "ANTHROPIC_DEFAULT_OPUS_MODEL"
  const HaikuModelKey := "ANTHROPIC_DEFAULT_HAIKU_MODEL"
  const TrafficKey := "CLAUDE_CODE_DISABLE_NONESSENTIAL_TRAFFIC"

  /** The keys whose values the summary shows, in the order it visits them. */
  const ValueKeys: seq<string> :=
    [BaseUrlKey, AuthTokenKey, TimeoutKey, ModelKey,
     SmallModelKey, SonnetModelKey, OpusModelKey, HaikuModelKey]

  /** The five model keys, one per model field of a provider. */
  const ModelKeySet: set<string> :=
    {ModelKey, SmallModelKey, SonnetModelKey, OpusModelKey, HaikuModelKey}

  /** Every key this program writes into `env`. */
  const ManagedKeys: set<string> :=
    {BaseUrlKey, AuthTokenKey, TimeoutKey, ModelKey,
     SmallModelKey, SonnetModelKey, OpusModelKey, HaikuModelKey, TrafficKey}

  /** `k` has the same presence and value in both maps. */
  predicate SameAt(a: Env, b: Env, k: string) {
    (k in a <==> k in b) && (k in a ==> a[k] == b[k])
  }

  /** `key` is present exactly when `value` is non-empty, and then holds it. */
  predicate SetIffNonEmpty(env: Env, key: string, value: string) {
    (key in env <==> value != "") && (value != "" ==> env[key] == JString(value))
  }

  // ---------------------------------------------------------------------------
  // ApplyProvider
  // ---------------------------------------------------------------------------

  /** The key/value pairs of the model-key loop. The source keeps them in a Go map, so the loop visits them in no fixed order. */
  function ModelFields(p: Provider): seq<(string, string)> {
    [(ModelKey, p.model), (SmallModelKey, p.smallModel), (SonnetModelKey, p.sonnetModel),
     (OpusModelKey, p.opusModel), (HaikuModelKey, p.haikuModel)]
  }

  predicate DistinctKeys(fs: seq<(string, string)>) {
    forall i, j :: 0 <= i < j < |fs| ==> fs[i].0 != fs[j].0
  }

  function KeysOf(fs: seq<(string, string)>): (r: set<string>)
    ensures forall i :: 0 <= i < |fs| ==> fs[i].0 in r
    ensures forall k :: k in r ==> exists i :: 0 <= i < |fs| && fs[i].0 == k
  {
    if |fs| == 0 then {}
    else
      var rest := KeysOf(fs[1..]);
      assert forall i :: 1 <= i < |fs| ==> fs[i] == fs[1..][i - 1];
      assert forall k :: k in rest ==> exists i :: 1 <= i < |fs| && fs[i].0 == k by {
        forall k | k in rest ensures exists i :: 1 <= i < |fs| && fs[i].0 == k {
          var j :| 0 <= j < |fs[1..]| && fs[1..][j].0 == k;
          assert fs[j + 1].0 == k;
        }
      }
      {fs[0].0} + rest
  }

  /** The managed keys have pairwise different lengths, so they are pairwise different strings. */
  lemma ManagedKeysDistinct()
    ensures BaseUrlKey != AuthTokenKey
    ensures BaseUrlKey != TimeoutKey && AuthTokenKey != TimeoutKey
    ensures BaseUrlKey != TrafficKey && AuthTokenKey != TrafficKey && TimeoutKey != TrafficKey
    ensures BaseUrlKey !in ModelKeySet && AuthTokenKey !in ModelKeySet
    ensures TimeoutKey !in ModelKeySet && TrafficKey !in ModelKeySet
    ensures ModelKey != SmallModelKey && ModelKey != SonnetModelKey && ModelKey != OpusModelKey
    ensures ModelKey != HaikuModelKey && SmallModelKey != SonnetModelKey && SmallModelKey != OpusModelKey
    ensures SmallModelKey != HaikuModelKey && SonnetModelKey != OpusModelKey
    ensures SonnetModelKey != HaikuModelKey && OpusModelKey != HaikuModelKey
  {
    assert |BaseUrlKey| == 18 && |AuthTokenKey| == 20 && |TimeoutKey| == 14;
    assert |ModelKey| == 15 && |SmallModelKey| == 26 && |SonnetModelKey| == 30;
    assert |OpusModelKey| == 28 && |HaikuModelKey| == 29 && |TrafficKey| == 40;
  }

  /** One turn of the model-key loop: delete the key, then set it if the value is non-empty. */
  function SetModelField(env: Env, key: string, value: string): Env {
    var e := env - {key};
    if value != "" then e[key := JString(value)] else e
  }

  /** The model-key loop, visiting the pairs in the order given. */
  function ApplyModelFields(env: Env, fs: seq<(string, string)>): (r: Env)
    requires DistinctKeys(fs)
    ensures forall k :: k !in KeysOf(fs) ==> SameAt(env, r, k)
    ensures forall i :: 0 <= i < |fs| ==> SetIffNonEmpty(r, fs[i].0, fs[i].1)
    decreases |fs|
  {
    if |fs| == 0 then env
    else
      var first := SetModelField(env, fs[0].0, fs[0].1);
      var r := ApplyModelFields(first, fs[1..]);
      assert forall i :: 1 <= i < |fs| ==> fs[i] == fs[1..][i - 1];
      assert fs[0].0 !in KeysOf(fs[1..]);
      assert SetIffNonEmpty(first, fs[0].0, fs[0].1);
      assert forall k :: k !in KeysOf(fs) ==> k != fs[0].0 && k !in KeysOf(fs[1..]);
      r
  }

  /** The unconditional part: the base URL and the token. */
  function SetCredentials(env: Env, p: Provider): (r: Env)
    ensures BaseUrlKey in r && r[BaseUrlKey] == JString(p.baseUrl)
    ensures AuthTokenKey in r && r[AuthTokenKey] == JString(p.apiKey)
    ensures forall k :: k != BaseUrlKey && k != AuthTokenKey ==> SameAt(env, r, k)
  {
    ManagedKeysDistinct();
    env[BaseUrlKey := JString(p.baseUrl)][AuthTokenKey := JString(p.apiKey)]
  }

  /** The timeout: deleted, then written in decimal only when positive. */
  function SetTimeout(env: Env, timeout: int): (r: Env)
    ensures TimeoutKey in r <==> timeout > 0
    ensures timeout > 0 ==> r[TimeoutKey] == JString(Decimal.Itoa(timeout))
    ensures forall k :: k != TimeoutKey ==> SameAt(env, r, k)
  {
    var e := env - {TimeoutKey};
    if timeout > 0 then e[TimeoutKey := JString(Decimal.Itoa(timeout))] else e
  }

  /** The model-key loop touches exactly the five model keys, each by its own field. */
  lemma ModelFieldsShape(p: Provider)
    ensures DistinctKeys(ModelFields(p))
    ensures KeysOf(ModelFields(p)) == ModelKeySet
  {
    ManagedKeysDistinct();
    var fs := ModelFields(p);
    assert fs[0].0 == ModelKey && fs[1].0 == SmallModelKey && fs[2].0 == SonnetModelKey;
    assert fs[3].0 == OpusModelKey && fs[4].0 == HaikuModelKey;
  }

  /** The loop over the five model keys, with its effect stated per key. */
  function ApplyModels(env: Env, p: Provider): (r: Env)
    ensures SetIffNonEmpty(r, ModelKey, p.model)
    ensures SetIffNonEmpty(r, SmallModelKey, p.smallModel)
    ensures SetIffNonEmpty(r, SonnetModelKey, p.sonnetModel)
    ensures SetIffNonEmpty(r, OpusModelKey, p.opusModel)
    ensures SetIffNonEmpty(r, HaikuModelKey, p.haikuModel)
    ensures forall k :: k !in ModelKeySet ==> SameAt(env, r, k)
  {
    ModelFieldsShape(p);
    var fs := ModelFields(p);
    var r := ApplyModelFields(env, fs);
    assert SetIffNonEmpty(r, fs[0].0, fs[0].1);
    assert SetIffNonEmpty(r, fs[1].0, fs[1].1);
    assert SetIffNonEmpty(r, fs[2].0, fs[2].1);
    assert SetIffNonEmpty(r, fs[3].0, fs[3].1);
    assert SetIffNonEmpty(r, fs[4].0, fs[4].1);
    r
  }

  /**
   ApplyProvider on the `env` object (the method touches nothing else of the
   document; a nil env behaves as the empty map).
   */
  function ApplyProvider(env: Env, p: Provider): (r: Env)
    ensures BaseUrlKey in r && r[BaseUrlKey] == JString(p.baseUrl)
    ensures AuthTokenKey in r && r[AuthTokenKey] == JString(p.apiKey)
    ensures TimeoutKey in r <==> p.timeout > 0
    ensures p.timeout > 0 ==> r[TimeoutKey] == JString(Decimal.Itoa(p.timeout))
    ensures SetIffNonEmpty(r, ModelKey, p.model)
    ensures SetIffNonEmpty(r, SmallModelKey, p.smallModel)
    ensures SetIffNonEmpty(r, SonnetModelKey, p.sonnetModel)
    ensures SetIffNonEmpty(r, OpusModelKey, p.opusModel)
    ensures SetIffNonEmpty(r, HaikuModelKey, p.haikuModel)
    ensures TrafficKey in r && r[TrafficKey] == JInt(1)
    ensures forall k :: k !in ManagedKeys ==> SameAt(env, r, k)
  {
    ManagedKeysDistinct();
    var e1 := SetCredentials(env, p);
    var e2 := SetTimeout(e1, p.timeout);
    var e3 := ApplyModels(e2, p);
    assert SameAt(e1, e2, BaseUrlKey) && SameAt(e1, e2, AuthTokenKey);
    assert SameAt(e2, e3, BaseUrlKey) && SameAt(e2, e3, AuthTokenKey) && SameAt(e2, e3, TimeoutKey);
    var r := e3[TrafficKey := JInt(1)];
    FrameChain(env, e1, e2, e3, r);
    r
  }

  /** The four stages of ApplyProvider together touch only managed keys. */
  lemma FrameChain(env: Env, e1: Env, e2: Env, e3: Env, r: Env)
    requires forall k :: k != BaseUrlKey && k != AuthTokenKey ==> SameAt(env, e1, k)
    requires forall k :: k != TimeoutKey ==> SameAt(e1, e2, k)
    requires forall k :: k !in ModelKeySet ==> SameAt(e2, e3, k)
    requires forall k :: k != TrafficKey ==> SameAt(e3, r, k)
    ensures forall k :: k !in ManagedKeys ==> SameAt(env, r, k)
  {
    forall k | k !in ManagedKeys
      ensures SameAt(env, r, k)
    {
      assert k != BaseUrlKey && k != AuthTokenKey && k != TimeoutKey && k != TrafficKey;
      assert k !in ModelKeySet;
      assert SameAt(env, e1, k) && SameAt(e1, e2, k) && SameAt(e2, e3, k) && SameAt(e3, r, k);
    }
  }

  /** ClearProviderSettings: delete the nine managed keys and nothing else. */
  function ClearProviderSettings(env: Env): (r: Env)
    ensures r.Keys == env.Keys - ManagedKeys
    ensures forall k :: k in r ==> r[k] == env[k]
  {
    env - {BaseUrlKey} - {AuthTokenKey} - {TimeoutKey} - {ModelKey} - {SmallModelKey}
        - {SonnetModelKey} - {OpusModelKey} - {HaikuModelKey} - {TrafficKey}
  }

  // ---------------------------------------------------------------------------
  // GetCurrentEnvConfig
  // ---------------------------------------------------------------------------

  /** The display string of one env value; `formatFloat` stands for strconv.FormatFloat(v, 'f', -1, 64). */
  function Display(v: JsonValue, formatFloat: Float64 -> string): string {
    match v
    case JString(s) => s
    case JFloat(f) => formatFloat(f)
    case JInt(i) => Decimal.Itoa(i)
    case _ => ""
  }

  /** The summary loop over `keys`: every key present in `env` gets its display string. */
  function Summarize(env: Env, keys: seq<string>, formatFloat: Float64 -> string): (r: map<string, string>)
    ensures r.Keys == (set k | k in keys) * env.Keys
    ensures forall k :: k in r ==> r[k] == Display(env[k], formatFloat)
    decreases |keys|
  {
    if |keys| == 0 then map[]
    else
      var rest := Summarize(env, keys[1..], formatFloat);
      if keys[0] in env then rest[keys[0] := Display(env[keys[0]], formatFloat)] else rest
  }

  /**
   GetCurrentEnvConfig: one entry for each managed value key present in
   `env` (never the traffic flag). Strings pass through, ints are written in
   decimal, floats go through `formatFloat`, and any other value shows as "".
   */
  function GetCurrentEnvConfig(env: Env, formatFloat: Float64 -> string): (r: map<string, string>)
    ensures r.Keys == (ManagedKeys - {TrafficKey}) * env.Keys
    ensures TrafficKey !in r
    ensures forall k :: k in r && env[k].JString? ==> r[k] == env[k].str
    ensures forall k :: k in r && env[k].JInt? ==> r[k] == Decimal.Itoa(env[k].i)
    ensures forall k :: k in r && env[k].JFloat? ==> r[k] == formatFloat(env[k].f)
    ensures forall k :: k in r && !(env[k].JString? || env[k].JInt? || env[k].JFloat?) ==> r[k] == ""
  {
    assert (set k | k in ValueKeys) == ManagedKeys - {TrafficKey};
    Summarize(env, ValueKeys, formatFloat)
  }

  // ---------------------------------------------------------------------------
  // The document: LoadSettings' partition and Save's output map
  // ---------------------------------------------------------------------------

  /** The Settings struct: six decoded fields and the rest of the top level. */
  datatype Settings = Settings(
    model: string,
    alwaysThinkingEnabled: Option<bool>,
    env: Env,
    permissions: map<string, JsonValue>,
    allowedDirectories: seq<string>,
    mcpServers: map<string, JsonValue>,
    additionalFields: map<string, JsonValue>)

  const KnownFields: set<string> :=
    {"model", "alwaysThinkingEnabled", "env", "permissions", "allowedDirectories", "mcpServers"}

  /** What LoadSettings returns when the file is missing or holds `null`. */
  const EmptySettings := Settings("", None, map[], map[], [], map[], map[])

  /** Why decoding the parsed document into the struct failed. */
  datatype LoadError =
    | NotAnObject       // the top level is neither an object nor null
    | FieldTypeMismatch // a known field holds a value of the wrong JSON type

  /** A missing member decodes like `null`: it leaves the Go zero value. */
  function Member(fields: map<string, JsonValue>, key: string): JsonValue {
    if key in fields then fields[key] else JNull
  }

  function DecodeString(v: JsonValue): (r: Result<string, LoadError>)
    ensures r.Failure? ==> r.error == FieldTypeMismatch
    ensures r.Success? <==> v.JString? || v.JNull?
    ensures v.JString? ==> r == Success(v.str)
    ensures v.JNull? ==> r == Success("")
  {
    match v
    case JString(s) => Success(s)
    case JNull => Success("")
    case _ => Failure(FieldTypeMismatch)
  }

  function DecodeBool(v: JsonValue): (r: Result<Option<bool>, LoadError>)
    ensures r.Failure? ==> r.error == FieldTypeMismatch
    ensures r.Success? <==> v.JBool? || v.JNull?
    ensures v.JBool? ==> r == Success(Some(v.b))
    ensures v.JNull? ==> r == Success(None)
  {
    match v
    case JBool(b) => Success(Some(b))
    case JNull => Success(None)
    case _ => Failure(FieldTypeMismatch)
  }

  function DecodeObject(v: JsonValue): (r: Result<map<string, JsonValue>, LoadError>)
    ensures r.Failure? ==> r.error == FieldTypeMismatch
    ensures r.Success? <==> v.JObject? || v.JNull?
    ensures v.JObject? ==> r == Success(v.fields)
    ensures v.JNull? ==> r == Success(map[])
  {
    match v
    case JObject(m) => Success(m)
    case JNull => Success(map[])
    case _ => Failure(FieldTypeMismatch)
  }

  /** Elements of a `[]string`: a string, or `null`, which leaves the element "". */
  function DecodeStringItems(items: seq<JsonValue>): (r: Result<seq<string>, LoadError>)
    ensures r.Success? <==> forall i :: 0 <= i < |items| ==> items[i].JString? || items[i].JNull?
    ensures r.Success? ==>
              && |r.value| == |items|
              && forall i :: 0 <= i < |items| ==>
                   r.value[i] == (if items[i].JString? then items[i].str else "")
    ensures r.Failure? ==> r.error == FieldTypeMismatch
    decreases |items|
  {
    if |items| == 0 then Success([])
    else
      var first :- DecodeString(items[0]);
      var rest :- DecodeStringItems(items[1..]);
      assert forall i :: 1 <= i < |items| ==> items[i] == items[1..][i - 1];
      Success([first] + rest)
  }

  function DecodeStrings(v: JsonValue): (r: Result<seq<string>, LoadError>)
    ensures v.JNull? ==> r == Success([])
    ensures !v.JArray? && !v.JNull? ==> r == Failure(FieldTypeMismatch)
    ensures v.JArray? ==> r == DecodeStringItems(v.items)
  {
    match v
    case JArray(items) => DecodeStringItems(items)
    case JNull => Success([])
    case _ => Failure(FieldTypeMismatch)
  }

  /** Every known field present holds a value of the type its struct field takes. */
  predicate WellTyped(fields: map<string, JsonValue>) {
    && DecodeString(Member(fields, "model")).Success?
    && DecodeBool(Member(fields, "alwaysThinkingEnabled")).Success?
    && DecodeObject(Member(fields, "env")).Success?
    && DecodeObject(Member(fields, "permissions")).Success?
    && DecodeStrings(Member(fields, "allowedDirectories")).Success?
    && DecodeObject(Member(fields, "mcpServers")).Success?
  }

  /** The six struct fields of `s` are what the decoders make of the members of `fields`. */
  predicate DecodedFrom(s: Settings, fields: map<string, JsonValue>) {
    && DecodeString(Member(fields, "model")) == Success(s.model)
    && DecodeBool(Member(fields, "alwaysThinkingEnabled")) == Success(s.alwaysThinkingEnabled)
    && DecodeObject(Member(fields, "env")) == Success(s.env)
    && DecodeObject(Member(fields, "permissions")) == Success(s.permissions)
    && DecodeStrings(Member(fields, "allowedDirectories")) == Success(s.allowedDirectories)
    && DecodeObject(Member(fields, "mcpServers")) == Success(s.mcpServers)
  }

  /**
   LoadSettings after the text is cleaned and parsed: decode the six known
   fields by exact key, and copy every other top-level member into
   `additionalFields`.
   */
  function LoadSettings(root: JsonValue): (r: Result<Settings, LoadError>)
    ensures root.JNull? ==> r == Success(EmptySettings)
    ensures !root.JNull? && !root.JObject? ==> r == Failure(NotAnObject)
    ensures root.JObject? ==> (r.Success? <==> WellTyped(root.fields))
    ensures root.JObject? && r.Success? ==>
              && r.value.additionalFields.Keys == root.fields.Keys - KnownFields
              && (forall k :: k in r.value.additionalFields ==>
                    r.value.additionalFields[k] == root.fields[k])
              && DecodedFrom(r.value, root.fields)
    ensures r.Failure? ==> root.JObject? ==> r.error == FieldTypeMismatch
  {
    match root
    case JNull => Success(EmptySettings)
    case JObject(fields) =>
      var model :- DecodeString(Member(fields, "model"));
      var thinking :- DecodeBool(Member(fields, "alwaysThinkingEnabled"));
      var env :- DecodeObject(Member(fields, "env"));
      var permissions :- DecodeObject(Member(fields, "permissions"));
      var dirs :- DecodeStrings(Member(fields, "allowedDirectories"));
      var servers :- DecodeObject(Member(fields, "mcpServers"));
      var additional := map k | k in fields && k !in KnownFields :: fields[k];
      Success(Settings(model, thinking, env, permissions, dirs, servers, additional))
    case _ => Failure(NotAnObject)
  }

  function StringsToJson(ds: seq<string>): (r: seq<JsonValue>)
    ensures |r| == |ds| && forall i :: 0 <= i < |ds| ==> r[i] == JString(ds[i])
  {
    seq(|ds|, i requires 0 <= i < |ds| => JString(ds[i]))
  }

  /** The six known field names have different lengths, so they are different strings. */
  lemma KnownFieldsDistinct()
    ensures "model" != "alwaysThinkingEnabled" && "model" != "env" && "model" != "permissions"
    ensures "model" != "allowedDirectories" && "model" != "mcpServers"
    ensures "alwaysThinkingEnabled" != "env" && "alwaysThinkingEnabled" != "permissions"
    ensures "alwaysThinkingEnabled" != "allowedDirectories" && "alwaysThinkingEnabled" != "mcpServers"
    ensures "env" != "permissions" && "env" != "allowedDirectories" && "env" != "mcpServers"
    ensures "permissions" != "allowedDirectories" && "permissions" != "mcpServers"
    ensures "allowedDirectories" != "mcpServers"
  {
    assert |"model"| == 5 && |"alwaysThinkingEnabled"| == 21 && |"env"| == 3;
    assert |"permissions"| == 11 && |"allowedDirectories"| == 18 && |"mcpServers"| == 10;
  }

  /** The known part of Save's output map: each field only when it is non-empty (non-nil for the bool). */
  function KnownOutput(s: Settings): (r: map<string, JsonValue>)
    ensures forall k :: k in r ==> k in KnownFields
    ensures ("model" in r <==> s.model != "") &&
            (s.model != "" ==> r["model"] == JString(s.model))
    ensures ("alwaysThinkingEnabled" in r <==> s.alwaysThinkingEnabled.Some?) &&
            (s.alwaysThinkingEnabled.Some? ==>
               r["alwaysThinkingEnabled"] == JBool(s.alwaysThinkingEnabled.value))
    ensures ("env" in r <==> |s.env| > 0) && (|s.env| > 0 ==> r["env"] == JObject(s.env))
    ensures ("permissions" in r <==> |s.permissions| > 0) &&
            (|s.permissions| > 0 ==> r["permissions"] == JObject(s.permissions))
    ensures ("allowedDirectories" in r <==> |s.allowedDirectories| > 0) &&
            (|s.allowedDirectories| > 0 ==>
               r["allowedDirectories"] == JArray(StringsToJson(s.allowedDirectories)))
    ensures ("mcpServers" in r <==> |s.mcpServers| > 0) &&
            (|s.mcpServers| > 0 ==> r["mcpServers"] == JObject(s.mcpServers))
  {
    KnownFieldsDistinct();
    var o1 := if s.model != "" then map["model" := JString(s.model)] else map[];
    var o2 := if s.alwaysThinkingEnabled.Some? then
                o1["alwaysThinkingEnabled" := JBool(s.alwaysThinkingEnabled.value)]
              else o1;
    var o3 := if |s.env| > 0 then o2["env" := JObject(s.env)] else o2;
    var o4 := if |s.permissions| > 0 then o3["permissions" := JObject(s.permissions)] else o3;
    var o5 := if |s.allowedDirectories| > 0 then
                o4["allowedDirectories" := JArray(StringsToJson(s.allowedDirectories))]
              else o4;
    if |s.mcpServers| > 0 then o5["mcpServers" := JObject(s.mcpServers)] else o5
  }

  /**
   The output map Save writes: the known fields that are non-empty, then
   every additional field, which wins on a clash.
   */
  function SaveOutput(s: Settings): (r: map<string, JsonValue>)
    ensures forall k :: k in s.additionalFields ==> k in r && r[k] == s.additionalFields[k]
    ensures forall k :: k in r ==> k in s.additionalFields || k in KnownFields
    ensures forall k :: k in KnownFields && k !in s.additionalFields ==>
              SameAt(r, KnownOutput(s), k)
  {
    KnownOutput(s) + s.additionalFields
  }

  // ---------------------------------------------------------------------------
  // Properties of the env operations
  // ---------------------------------------------------------------------------

  /** Two maps that agree at every key are equal. */
  lemma SameEverywhere(a: Env, b: Env)
    requires forall k :: SameAt(a, b, k)
    ensures a == b
  {
    assert a.Keys == b.Keys by {
      forall k ensures k in a <==> k in b { assert SameAt(a, b, k); }
    }
    forall k | k in a
      ensures a[k] == b[k]
    {
      assert SameAt(a, b, k);
    }
  }

  /**
   ApplyProvider fixes every managed key from the provider alone, so its
   result is the untouched part of `env` plus a part that depends on `p` only.
   */
  lemma ApplyDependsOnUnmanagedOnly(e1: Env, e2: Env, p: Provider)
    requires forall k :: k !in ManagedKeys ==> SameAt(e1, e2, k)
    ensures ApplyProvider(e1, p) == ApplyProvider(e2, p)
  {
    var r1 := ApplyProvider(e1, p);
    var r2 := ApplyProvider(e2, p);
    forall k
      ensures SameAt(r1, r2, k)
    {
      if k !in ManagedKeys {
        assert SameAt(e1, r1, k) && SameAt(e2, r2, k) && SameAt(e1, e2, k);
      } else {
        assert k in ModelKeySet || k == BaseUrlKey || k == AuthTokenKey || k == TimeoutKey || k == TrafficKey;
      }
    }
    SameEverywhere(r1, r2);
  }

  /** Clearing before applying changes nothing: ApplyProvider already rewrites every managed key. */
  lemma ApplyAfterClear(env: Env, p: Provider)
    ensures ApplyProvider(ClearProviderSettings(env), p) == ApplyProvider(env, p)
  {
    var c := ClearProviderSettings(env);
    assert forall k :: k !in ManagedKeys ==> SameAt(c, env, k);
    ApplyDependsOnUnmanagedOnly(c, env, p);
  }

  /** Applying the same provider twice is the same as applying it once. */
  lemma ApplyIdempotent(env: Env, p: Provider)
    ensures ApplyProvider(ApplyProvider(env, p), p) == ApplyProvider(env, p)
  {
    var once := ApplyProvider(env, p);
    assert forall k :: k !in ManagedKeys ==> SameAt(once, env, k);
    ApplyDependsOnUnmanagedOnly(once, env, p);
  }

  /** Clearing twice is clearing once, and clearing removes everything ApplyProvider wrote. */
  lemma ClearUndoesApply(env: Env, p: Provider)
    ensures ClearProviderSettings(ApplyProvider(env, p)) == ClearProviderSettings(env)
    ensures ClearProviderSettings(ClearProviderSettings(env)) == ClearProviderSettings(env)
  {
    var a := ClearProviderSettings(ApplyProvider(env, p));
    var b := ClearProviderSettings(env);
    forall k
      ensures SameAt(a, b, k)
    {
      if k !in ManagedKeys {
        assert SameAt(env, ApplyProvider(env, p), k);
      }
    }
    SameEverywhere(a, b);
  }

  /**
   The model-key loop gives the same map whatever order it visits the pairs
   in, as long as it visits the same pairs: the source iterates over a Go map,
   whose order is unspecified.
   */
  lemma ModelLoopOrderIrrelevant(env: Env, fs: seq<(string, string)>, gs: seq<(string, string)>)
    requires DistinctKeys(fs) && DistinctKeys(gs)
    requires forall x :: x in fs <==> x in gs
    ensures ApplyModelFields(env, fs) == ApplyModelFields(env, gs)
  {
    var a := ApplyModelFields(env, fs);
    var b := ApplyModelFields(env, gs);
    SameKeysOf(fs, gs);
    SameKeysOf(gs, fs);
    forall k
      ensures SameAt(a, b, k)
    {
      if k in KeysOf(fs) {
        var i :| 0 <= i < |fs| && fs[i].0 == k;
        assert fs[i] in gs;
        var j :| 0 <= j < |gs| && gs[j] == fs[i];
        assert SetIffNonEmpty(a, fs[i].0, fs[i].1);
        assert SetIffNonEmpty(b, gs[j].0, gs[j].1);
      } else {
        assert SameAt(env, a, k) && SameAt(env, b, k);
      }
    }
    SameEverywhere(a, b);
  }

  lemma SameKeysOf(fs: seq<(string, string)>, gs: seq<(string, string)>)
    requires forall x :: x in gs ==> x in fs
    ensures KeysOf(gs) <= KeysOf(fs)
  {
    forall k | k in KeysOf(gs)
      ensures k in KeysOf(fs)
    {
      var j :| 0 <= j < |gs| && gs[j].0 == k;
      assert gs[j] in fs;
      var i :| 0 <= i < |fs| && fs[i] == gs[j];
    }
  }

  /** The summary after a switch: what the provider set, independent of the rest of `env`. */
  lemma SummaryAfterApply(env: Env, p: Provider, formatFloat: Float64 -> string)
    ensures var r := GetCurrentEnvConfig(ApplyProvider(env, p), formatFloat);
            && r[BaseUrlKey] == p.baseUrl
            && r[AuthTokenKey] == p.apiKey
            && (TimeoutKey in r <==> p.timeout > 0)
            && (p.timeout > 0 ==> r[TimeoutKey] == Decimal.Itoa(p.timeout))
            && (ModelKey in r <==> p.model != "")
            && (p.model != "" ==> r[ModelKey] == p.model)
  {
    ManagedKeysDistinct();
  }

  /** After a clear the summary is empty. */
  lemma SummaryAfterClear(env: Env, formatFloat: Float64 -> string)
    ensures GetCurrentEnvConfig(ClearProviderSettings(env), formatFloat) == map[]
  {
    var r := GetCurrentEnvConfig(ClearProviderSettings(env), formatFloat);
    assert r.Keys == {};
  }

  /**
   A provider with no timeout and no models leaves the foreign variables of
   `env` and exactly three managed keys: the URL, the token and the traffic flag.
   */
  lemma BareProviderKeys(env: Env, p: Provider)
    requires p.timeout <= 0
    requires p.model == "" && p.smallModel == "" && p.sonnetModel == ""
    requires p.opusModel == "" && p.haikuModel == ""
    ensures ApplyProvider(env, p).Keys ==
              (env.Keys - ManagedKeys) + {BaseUrlKey, AuthTokenKey, TrafficKey}
  {
    var r := ApplyProvider(env, p);
    forall k
      ensures k in r <==> k in (env.Keys - ManagedKeys) + {BaseUrlKey, AuthTokenKey, TrafficKey}
    {
      if k !in ManagedKeys {
        assert SameAt(env, r, k);
      }
    }
  }

  /** A positive timeout is written as its decimal string. */
  lemma TimeoutExample(env: Env, p: Provider)
    requires p.timeout == 5000
    ensures ApplyProvider(env, p)[TimeoutKey] == JString("5000")
  {
    assert Decimal.NatToDigits(5) == "5";
    assert Decimal.NatToDigits(50) == "50";
    assert Decimal.NatToDigits(500) == "500";
  }

  // ---------------------------------------------------------------------------
  // Properties of the document round trip
  // ---------------------------------------------------------------------------

  /** Every top-level member outside the six known fields survives load and save unchanged. */
  lemma UnknownFieldsSurvive(fields: map<string, JsonValue>, s: Settings)
    requires LoadSettings(JObject(fields)) == Success(s)
    ensures forall k :: k !in KnownFields ==> SameAt(fields, SaveOutput(s), k)
  {
    forall k | k !in KnownFields
      ensures SameAt(fields, SaveOutput(s), k)
    {
      if k in fields {
        assert k in s.additionalFields;
      }
    }
  }

  /** A known member holds a value Save writes back as it is: non-empty, and with no `null` inside a directory list. */
  predicate Canonical(fields: map<string, JsonValue>) {
    && ("model" in fields ==> fields["model"].JString? && fields["model"].str != "")
    && ("alwaysThinkingEnabled" in fields ==> fields["alwaysThinkingEnabled"].JBool?)
    && ("env" in fields ==> fields["env"].JObject? && |fields["env"].fields| > 0)
    && ("permissions" in fields ==> fields["permissions"].JObject? && |fields["permissions"].fields| > 0)
    && ("allowedDirectories" in fields ==>
          && fields["allowedDirectories"].JArray?
          && |fields["allowedDirectories"].items| > 0
          && forall i :: 0 <= i < |fields["allowedDirectories"].items| ==>
               fields["allowedDirectories"].items[i].JString?)
    && ("mcpServers" in fields ==> fields["mcpServers"].JObject? && |fields["mcpServers"].fields| > 0)
  }

  /** A decoded string list written back gives the original items when none of them was `null`. */
  lemma StringItemsRoundTrip(items: seq<JsonValue>)
    requires forall i :: 0 <= i < |items| ==> items[i].JString?
    ensures DecodeStringItems(items).Success?
    ensures StringsToJson(DecodeStringItems(items).value) == items
  {
  }

  /** Each canonical known member is written back as it was read. */
  lemma KnownFieldRoundTrip(fields: map<string, JsonValue>, s: Settings, k: string)
    requires Canonical(fields) && DecodedFrom(s, fields)
    requires k in KnownFields
    ensures SameAt(fields, KnownOutput(s), k)
  {
    if k == "allowedDirectories" && k in fields {
      StringItemsRoundTrip(fields[k].items);
    }
  }

  /**
   Load then Save gives back the document whenever every known member is
   canonical; RoundTripOnlyWhenCanonical is the converse.
   */
  lemma LoadSaveRoundTrip(fields: map<string, JsonValue>)
    requires Canonical(fields)
    ensures LoadSettings(JObject(fields)).Success?
    ensures SaveOutput(LoadSettings(JObject(fields)).value) == fields
  {
    var s := LoadSettings(JObject(fields)).value;
    var out := SaveOutput(s);
    UnknownFieldsSurvive(fields, s);
    forall k
      ensures SameAt(fields, out, k)
    {
      if k in KnownFields {
        assert k !in s.additionalFields;
        KnownFieldRoundTrip(fields, s, k);
      }
    }
    SameEverywhere(fields, out);
  }

  /**
   A document that load then save gives back has only canonical known
   members: Save drops an empty `env`, a `"model": ""` or a `null`, and
   writes a `null` directory entry back as `""`.
   */
  lemma RoundTripOnlyWhenCanonical(fields: map<string, JsonValue>)
    requires LoadSettings(JObject(fields)).Success?
    requires SaveOutput(LoadSettings(JObject(fields)).value) == fields
    ensures Canonical(fields)
  {
    var s := LoadSettings(JObject(fields)).value;
    var known := KnownOutput(s);
    forall k | k in fields && k in KnownFields
      ensures k in known && fields[k] == known[k]
    {
      assert k !in s.additionalFields;
      assert SameAt(SaveOutput(s), known, k);
    }
    if "allowedDirectories" in fields {
      var items := fields["allowedDirectories"].items;
      assert items == StringsToJson(s.allowedDirectories);
      assert forall i :: 0 <= i < |items| ==> items[i] == JString(s.allowedDirectories[i]);
    }
  }

  /** An `env` that ends up empty is left out of the saved document. */
  lemma EmptyEnvDropped(s: Settings)
    requires s.env == map[] && "env" !in s.additionalFields
    ensures "env" !in SaveOutput(s)
  {
  }

  /**
   Load, clear, apply and save: members outside the known six come back
   unchanged, and so does every variable of `env` that is not a managed key.
   */
  lemma SwitchKeepsForeignSettings(fields: map<string, JsonValue>, p: Provider)
    requires LoadSettings(JObject(fields)).Success?
    ensures var s := LoadSettings(JObject(fields)).value;
            var out := SaveOutput(s.(env := ApplyProvider(ClearProviderSettings(s.env), p)));
            && (forall k :: k !in KnownFields ==> SameAt(fields, out, k))
            && ("env" in out && out["env"].JObject?)
            && (forall k :: k !in ManagedKeys ==> SameAt(s.env, out["env"].fields, k))
  {
    var s := LoadSettings(JObject(fields)).value;
    var s' := s.(env := ApplyProvider(ClearProviderSettings(s.env), p));
    assert LoadSettings(JObject(fields)) == Success(s);
    UnknownFieldsSurvive(fields, s);
    KnownFieldsDistinct();
    assert "env" !in s.additionalFields;
    assert BaseUrlKey in s'.env;
    var out := SaveOutput(s');
    forall k | k !in KnownFields
      ensures SameAt(fields, out, k)
    {
      assert SameAt(fields, SaveOutput(s), k);
    }
    forall k | k !in ManagedKeys
      ensures SameAt(s.env, out["env"].fields, k)
    {
      assert SameAt(ClearProviderSettings(s.env), s'.env, k);
    }
  }
}
