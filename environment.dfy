/**
  The isolated OpenClaw environment of one run: its variables, the onboard command and its
  redacted log line, reading back what onboard wrote, and patching the context window of the
  model entries in the written configuration. Files, processes and HTTP are outside the model:
  what they would return arrives as parameters.
*/
module Environment {
  import opened Common
  import opened Text
  import opened Config

  // ---------------------------------------------------------------------------------------
  // Context-window discovery

  /** The native API root of an OpenAI-compatible base URL: trailing `/` removed, then a trailing `/v1`. */
  function ApiRoot(baseUrl: string): (root: string)
  {
    var u := RStrip(baseUrl, Only('/'));
    if EndsWith(u, "/v1") then u[..|u| - 3] else u
  }

  /**
    The root is a prefix of the base URL, followed either by slashes only, the root then ending
    neither in `/` nor in `/v1`, or by one `/v1` and slashes only.
  */
  lemma ApiRootSplits(baseUrl: string)
    ensures var root := ApiRoot(baseUrl);
      |root| <= |baseUrl| && baseUrl[..|root|] == root &&
      var rest := baseUrl[|root|..];
      (AllChar(rest, '/') && (root == [] || root[|root| - 1] != '/') && !EndsWith(root, "/v1")) ||
      (|rest| >= 3 && rest[..3] == "/v1" && AllChar(rest[3..], '/'))
  {
    var u := RStrip(baseUrl, Only('/'));
    assert u == baseUrl[..|u|];
    var root := ApiRoot(baseUrl);
    if EndsWith(u, "/v1") {
      assert root == u[..|u| - 3];
      var rest := baseUrl[|root|..];
      assert rest[..3] == u[|u| - 3..];
      assert forall i :: 3 <= i < |rest| ==> rest[i] == baseUrl[|root| + i];
      assert AllChar(rest[3..], '/') by {
        forall i | 0 <= i < |rest[3..]| ensures rest[3..][i] == '/' {
          assert rest[3..][i] == baseUrl[|u| + i];
        }
      }
    } else {
      assert root == u;
      var rest := baseUrl[|root|..];
      forall i | 0 <= i < |rest| ensures rest[i] == '/' {
        assert rest[i] == baseUrl[|u| + i];
      }
    }
  }

  /** `http://host/v1`, with or without trailing slashes, has `http://host` as its root. */
  lemma ApiRootOfVersioned(host: string, slashes: nat)
    requires host == [] || host[|host| - 1] != '/'
    ensures ApiRoot(host + "/v1" + seq(slashes, _ => '/')) == host
  {
    var u := host + "/v1";
    var s := u + seq(slashes, _ => '/');
    assert s[..|u|] == u;
    assert ClassStart(s, 0, |s|, Only('/')) == |u| by {
      ClassStartUnique(s, 0, |s|, Only('/'), |u|);
    }
    assert u[|u| - 3..] == "/v1";
  }

  /** A root without a trailing slash or `/v1` is its own API root. */
  lemma ApiRootPlain(u: string)
    requires u == [] || u[|u| - 1] != '/'
    requires !EndsWith(u, "/v1")
    ensures ApiRoot(u) == u
  {
    RStripNoop(u, Only('/'));
  }

  /** What `/api/show` reports under `model_info`: a number, or any other JSON value. */
  datatype InfoValue = Number(n: real) | NotNumber

  /** A decoded `/api/show` answer: the `model_info` entries in order and the `parameters` text. */
  datatype ShowResponse = ShowResponse(modelInfo: seq<(string, InfoValue)>, parameters: string)

  /** A `model_info` entry that carries the context length. */
  predicate InfoHit(entry: (string, InfoValue)) {
    EndsWith(entry.0, ".context_length") && entry.1.Number? && entry.1.n > 0.0
  }

  /** A `parameters` line `num_ctx <n>` with a positive n, and that n. */
  function NumCtxOf(line: string): (r: Option<int>)
    ensures r.Some? <==> var parts := Words(Strip(line));
      |parts| == 2 && parts[0] == "num_ctx" && ParseInt(parts[1]).Some? && ParseInt(parts[1]).value > 0
    ensures r.Some? ==> r.value > 0 && r == ParseInt(Words(Strip(line))[1])
  {
    var parts := Words(Strip(line));
    if |parts| == 2 && parts[0] == "num_ctx" then
      match ParseInt(parts[1])
      case Some(v) => if v > 0 then Some(v) else None
      case None => None
    else None
  }

  /** The context length a `model_info` entry carries, if it is the entry for it. */
  function InfoWindow(entry: (string, InfoValue)): (r: Option<int>)
    ensures r.Some? <==> InfoHit(entry)
  {
    if InfoHit(entry) then Some(entry.1.n.Floor) else None
  }

  /** The first answer `f` gives on `xs[i..]`, scanning in order. */
  function FirstSome<T, U>(xs: seq<T>, f: T -> Option<U>, i: nat): Option<U>
    requires i <= |xs|
    decreases |xs| - i
  {
    if i == |xs| then None
    else if f(xs[i]).Some? then f(xs[i])
    else FirstSome(xs, f, i + 1)
  }

  /** The scan finds nothing iff no element answers, and otherwise the answer of the first one that does. */
  lemma {:induction false} FirstSomeIsFirst<T, U>(xs: seq<T>, f: T -> Option<U>, i: nat)
    requires i <= |xs|
    ensures FirstSome(xs, f, i).None? <==> forall k :: i <= k < |xs| ==> f(xs[k]).None?
    ensures FirstSome(xs, f, i).Some? ==>
              exists k :: i <= k < |xs| && f(xs[k]) == FirstSome(xs, f, i)
                          && forall q :: i <= q < k ==> f(xs[q]).None?
    decreases |xs| - i
  {
    if i < |xs| && f(xs[i]).None? {
      FirstSomeIsFirst(xs, f, i + 1);
    }
  }

  /**
    `_query_ollama_context_window` on the server's answer (`None` when the request or the JSON
    decoding failed): the first `model_info` entry with the context length, else the first
    `num_ctx` line of the parameters, else nothing.
  */
  function DiscoveredWindow(response: Option<ShowResponse>): Option<int> {
    if response.None? then None
    else
      var fromInfo := FirstSome(response.value.modelInfo, InfoWindow, 0);
      if fromInfo.Some? then fromInfo
      else FirstSome(SplitLines(response.value.parameters), NumCtxOf, 0)
  }

  /** The two loops of `_query_ollama_context_window`. */
  method QueryContextWindow(response: Option<ShowResponse>) returns (r: Option<int>)
    ensures r == DiscoveredWindow(response)
  {
    if response.None? {
      return None;
    }
    var info := response.value.modelInfo;
    for i := 0 to |info|
      invariant FirstSome(info, InfoWindow, 0) == FirstSome(info, InfoWindow, i)
    {
      if InfoHit(info[i]) {
        return Some(info[i].1.n.Floor);
      }
    }
    var lines := SplitLines(response.value.parameters);
    for j := 0 to |lines|
      invariant FirstSome(lines, NumCtxOf, 0) == FirstSome(lines, NumCtxOf, j)
    {
      var ctx := NumCtxOf(lines[j]);
      if ctx.Some? {
        return ctx;
      }
    }
    return None;
  }

  /**
    The discovered window is the first `model_info` context length; without one, the first
    positive `num_ctx` line; without either, nothing.
  */
  lemma DiscoveredWindowOrder(response: ShowResponse)
    ensures var info := response.modelInfo; var r := DiscoveredWindow(Some(response));
      && ((exists i :: 0 <= i < |info| && InfoHit(info[i])) ==>
            exists i :: 0 <= i < |info| && InfoHit(info[i]) && r == Some(info[i].1.n.Floor)
                         && forall k :: 0 <= k < i ==> !InfoHit(info[k]))
      && ((forall i :: 0 <= i < |info| ==> !InfoHit(info[i])) ==>
            var lines := SplitLines(response.parameters);
            && ((exists j :: 0 <= j < |lines| && NumCtxOf(lines[j]).Some?) ==>
                  exists j :: 0 <= j < |lines| && r == NumCtxOf(lines[j])
                              && r.Some? && forall k :: 0 <= k < j ==> NumCtxOf(lines[k]).None?)
            && ((forall j :: 0 <= j < |lines| ==> NumCtxOf(lines[j]).None?) ==> r.None?))
  {
    var info := response.modelInfo;
    var lines := SplitLines(response.parameters);
    FirstSomeIsFirst(info, InfoWindow, 0);
    FirstSomeIsFirst(lines, NumCtxOf, 0);
  }

  /** The context window to configure, clamped to [16000, 128000]. */
  function Clamp(ctx: int): (r: int)
    ensures MinContextWindow <= r <= MaxContextWindow
    ensures MinContextWindow <= ctx <= MaxContextWindow ==> r == ctx
    ensures ctx < MinContextWindow ==> r == MinContextWindow
    ensures ctx > MaxContextWindow ==> r == MaxContextWindow
  {
    var lifted := if ctx > MinContextWindow then ctx else MinContextWindow;
    if lifted < MaxContextWindow then lifted else MaxContextWindow
  }

  /** The server is asked only for a model left at the default window on a localhost URL. */
  predicate ShouldDiscover(model: ModelConfig) {
    model.contextWindow == DefaultContextWindow && Contains(model.baseUrl, "localhost")
  }

  /**
    The resolution order: an explicitly configured window, else a discovered window of at least
    16000, else the configured default; always clamped. `discovered` is what the server query
    would return, consulted only when discovery applies.
  */
  function ResolveContextWindow(model: ModelConfig, discovered: Option<int>): (ctx: int)
    ensures MinContextWindow <= ctx <= MaxContextWindow
    ensures ShouldDiscover(model) && discovered.Some? && discovered.value >= MinContextWindow
            ==> ctx == Clamp(discovered.value)
    ensures !(ShouldDiscover(model) && discovered.Some? && discovered.value >= MinContextWindow)
            ==> ctx == Clamp(model.contextWindow)
  {
    var chosen :=
      if ShouldDiscover(model) && discovered.Some? && discovered.value != 0 && discovered.value >= MinContextWindow
      then discovered.value
      else model.contextWindow;
    Clamp(chosen)
  }

  /** A model left at the default and not on localhost keeps the (clamped) default window. */
  lemma RemoteKeepsDefault(model: ModelConfig, discovered: Option<int>)
    requires !Contains(model.baseUrl, "localhost") && model.contextWindow == DefaultContextWindow
    ensures ResolveContextWindow(model, discovered) == MaxContextWindow
  {
  }

  /** An explicitly configured window in range is used as it stands, whatever the server says. */
  lemma ExplicitWindowWins(model: ModelConfig, discovered: Option<int>)
    requires model.contextWindow != DefaultContextWindow
    requires MinContextWindow <= model.contextWindow <= MaxContextWindow
    ensures ResolveContextWindow(model, discovered) == model.contextWindow
  {
  }

  // ---------------------------------------------------------------------------------------
  // Patching the written configuration

  /** A model entry of a provider in the written configuration, with the keys the patch touches. */
  datatype ModelEntry = ModelEntry(id: Option<string>, contextWindow: Option<int>, maxTokens: Option<int>)

  /** A provider: its `models` list, `None` when the value is not a list. */
  datatype Provider = Provider(models: Option<seq<ModelEntry>>)

  const MinMaxTokens := 8192

  /** One entry after the patch: a matching entry gets the window and at least 8192 output tokens. */
  function PatchEntry(e: ModelEntry, modelId: string, ctx: int): (r: ModelEntry)
    ensures r.id == e.id
    ensures e.id != Some(modelId) ==> r == e
    ensures e.id == Some(modelId) ==> r.contextWindow == Some(ctx) && r.maxTokens.Some?
                                      && r.maxTokens.value >= MinMaxTokens
                                      && r.maxTokens.value >= e.maxTokens.GetOr(MinMaxTokens)
  {
    if e.id == Some(modelId) then
      var current := e.maxTokens.GetOr(MinMaxTokens);
      e.(contextWindow := Some(ctx), maxTokens := Some(if current > MinMaxTokens then current else MinMaxTokens))
    else e
  }

  function PatchProvider(p: Provider, modelId: string, ctx: int): Provider {
    match p.models
    case None => p
    case Some(ms) => Provider(Some(seq(|ms|, j requires 0 <= j < |ms| => PatchEntry(ms[j], modelId, ctx))))
  }

  predicate HasMatch(p: Provider, modelId: string) {
    p.models.Some? && exists j :: 0 <= j < |p.models.value| && p.models.value[j].id == Some(modelId)
  }

  /** Patching twice is patching once. */
  lemma PatchIdempotent(p: Provider, modelId: string, ctx: int)
    ensures PatchProvider(PatchProvider(p, modelId, ctx), modelId, ctx) == PatchProvider(p, modelId, ctx)
  {
    if p.models.Some? {
      var ms := p.models.value;
      var once := PatchProvider(p, modelId, ctx).models.value;
      var twice := PatchProvider(PatchProvider(p, modelId, ctx), modelId, ctx).models.value;
      assert |twice| == |once|;
      forall j | 0 <= j < |once| ensures twice[j] == once[j] {
        assert once[j] == PatchEntry(ms[j], modelId, ctx);
        assert twice[j] == PatchEntry(once[j], modelId, ctx);
        EntryIdempotent(ms[j], modelId, ctx);
      }
      assert twice == once;
    }
  }

  lemma EntryIdempotent(e: ModelEntry, modelId: string, ctx: int)
    ensures PatchEntry(PatchEntry(e, modelId, ctx), modelId, ctx) == PatchEntry(e, modelId, ctx)
  {
  }

  /** The configuration file onboard wrote, as the patch sees it: its providers in order. */
  class ConfigDocument {
    var providers: seq<Provider>

    constructor(providers: seq<Provider>)
      ensures this.providers == providers
    {
      this.providers := providers;
    }

    /**
      The loop of `_patch_config_context_window` over every provider's model list: every entry
      for `modelId` is patched in place, and the result says whether any was, which decides
      whether the file is written back.
    */
    method PatchModels(modelId: string, ctx: int) returns (patched: bool)
      modifies this
      ensures |providers| == |old(providers)|
      ensures forall i :: 0 <= i < |providers| ==> providers[i] == PatchProvider(old(providers)[i], modelId, ctx)
      ensures patched <==> exists i :: 0 <= i < |old(providers)| && HasMatch(old(providers)[i], modelId)
    {
      patched := false;
      for i := 0 to |providers|
        invariant |providers| == |old(providers)|
        invariant forall k :: 0 <= k < i ==> providers[k] == PatchProvider(old(providers)[k], modelId, ctx)
        invariant forall k :: i <= k < |providers| ==> providers[k] == old(providers)[k]
        invariant patched <==> exists k :: 0 <= k < i && HasMatch(old(providers)[k], modelId)
      {
        var p := providers[i];
        if p.models.Some? {
          var ms := p.models.value;
          var original := ms;
          var matched := false;
          for j := 0 to |ms|
            invariant |ms| == |original|
            invariant forall l :: 0 <= l < j ==> ms[l] == PatchEntry(original[l], modelId, ctx)
            invariant forall l :: j <= l < |ms| ==> ms[l] == original[l]
            invariant matched <==> exists l :: 0 <= l < j && original[l].id == Some(modelId)
          {
            if ms[j].id == Some(modelId) {
              ms := ms[j := PatchEntry(ms[j], modelId, ctx)];
              matched := true;
            }
          }
          assert ms == seq(|original|, l requires 0 <= l < |original| => PatchEntry(original[l], modelId, ctx));
          providers := providers[i := Provider(Some(ms))];
          patched := patched || matched;
        }
      }
    }
  }

  /**
    `_patch_config_context_window`: nothing happens when the written file is missing or
    unreadable (`None`); otherwise the resolved window is patched into every entry for the model
    and the file is written back exactly when some entry matched. `discovered` is what the
    server query returns, consulted only when discovery applies.
  */
  method PatchConfigContextWindow(model: ModelConfig, doc: Option<ConfigDocument>, discovered: Option<int>)
    returns (written: bool)
    modifies if doc.Some? then {doc.value} else {}
    ensures doc.None? ==> !written
    ensures doc.Some? ==> var ctx := ResolveContextWindow(model, discovered);
      && |doc.value.providers| == |old(doc.value.providers)|
      && (forall i :: 0 <= i < |doc.value.providers| ==>
            doc.value.providers[i] == PatchProvider(old(doc.value.providers)[i], model.modelId, ctx))
      && (written <==> exists i :: 0 <= i < |old(doc.value.providers)| && HasMatch(old(doc.value.providers)[i], model.modelId))
  {
    if doc.None? {
      return false;
    }
    var ctx := ResolveContextWindow(model, discovered);
    written := doc.value.PatchModels(model.modelId, ctx);
  }

  /** After the patch every entry for the model has the window and at least 8192 output tokens. */
  lemma PatchedEntriesFloor(p: Provider, modelId: string, ctx: int, j: nat)
    requires p.models.Some? && j < |p.models.value| && p.models.value[j].id == Some(modelId)
    ensures var q := PatchProvider(p, modelId, ctx);
      q.models.Some? && j < |q.models.value|
      && q.models.value[j].contextWindow == Some(ctx)
      && q.models.value[j].maxTokens.Some? && q.models.value[j].maxTokens.value >= MinMaxTokens
  {
  }

  // ---------------------------------------------------------------------------------------
  // Reading back the written configuration

  /** `agents.defaults.model` as written: an object with `primary`, a plain string, or anything else. */
  datatype ModelRef = RefObject(primary: Option<string>) | RefString(ref: string) | RefOther

  /** The parts of the written `openclaw.json` that are read back. */
  datatype WrittenConfig = WrittenConfig(model: ModelRef, token: Option<string>)

  /** The provider id of a `provider/model` reference: the text before the first `/`. */
  function ProviderId(ref: string): (r: Option<string>)
    ensures r.None? <==> '/' !in ref
    ensures r.Some? ==> '/' !in r.value && |r.value| < |ref| && ref[..|r.value| + 1] == r.value + "/"
  {
    if '/' in ref then
      var p := BeforeFirst(ref, '/');
      BeforeFirstPrefix(ref, '/');
      assert |p| < |ref| by {
        var k :| 0 <= k < |ref| && ref[k] == '/';
        assert k < |p| ==> p[k] == ref[k];
      }
      Some(p)
    else None
  }

  lemma {:induction false} BeforeFirstPrefix(s: string, sep: char)
    ensures s[..|BeforeFirst(s, sep)|] == BeforeFirst(s, sep)
    decreases |s|
  {
    if s != [] && s[0] != sep {
      BeforeFirstPrefix(s[1..], sep);
    }
  }

  /** `provider/model` names `provider`. */
  lemma ProviderOfReference(provider: string, model: string)
    requires '/' !in provider
    ensures ProviderId(provider + "/" + model) == Some(provider)
  {
    var ref := provider + "/" + model;
    assert ref[|provider|] == '/';
    var r := ProviderId(ref);
    var p := r.value;
    assert ref[|p|] == (p + "/")[|p|] == '/';
    assert forall i :: 0 <= i < |p| ==> p[i] == ref[..|p| + 1][i] == ref[i];
    assert forall i :: 0 <= i < |provider| ==> provider[i] == ref[i];
    assert |p| == |provider|;
    assert p == ref[..|p|] == provider;
  }

  /** The reference the read-back takes the provider from. */
  function ReferenceOf(model: ModelRef): string {
    match model
    case RefObject(primary) => primary.GetOr("")
    case RefString(ref) => ref
    case RefOther => ""
  }

  // ---------------------------------------------------------------------------------------
  // The environment object

  const PathSeparator := ":"

  /** A model name made safe for a directory name: `:` and `/` become `_`, nothing else changes. */
  function SafeName(name: string): (r: string)
    ensures |r| == |name|
    ensures ':' !in r && '/' !in r
    ensures forall i :: 0 <= i < |name| ==> r[i] == (if name[i] == ':' || name[i] == '/' then '_' else name[i])
  {
    ReplaceChar(ReplaceChar(name, ':', '_'), '/', '_')
  }

  /** The prefix of the temporary home directory's name. */
  function TempPrefix(model: ModelConfig): string {
    "openclaw_bench_" + SafeName(model.name) + "_"
  }

  class OpenClawEnvironment {
    const cfg: BenchmarkConfig
    const model: ModelConfig
    const homeDir: string
    const isTemp: bool
    var gatewayToken: Option<string>
    var providerId: Option<string>

    /** A fresh environment in `homeDir`, an explicit run directory or the temporary one made for it. */
    constructor(cfg: BenchmarkConfig, model: ModelConfig, homeDir: string, isTemp: bool)
      ensures this.cfg == cfg && this.model == model && this.homeDir == homeDir && this.isTemp == isTemp
      ensures gatewayToken.None? && providerId.None?
    {
      this.cfg := cfg;
      this.model := model;
      this.homeDir := homeDir;
      this.isTemp := isTemp;
      gatewayToken := None;
      providerId := None;
    }

    function ConfigPath(): string { homeDir + "/openclaw.json" }
    function WorkspaceDir(): string { homeDir + "/workspace" }
    function NpmBin(): string { homeDir + "/npm_prefix/bin" }

    /**
      `env()`: the inherited variables with the OpenClaw overrides; the API key and the gateway
      token are exported only when non-empty, and every other variable is inherited unchanged.
    */
    function Env(inherited: map<string, string>): (e: map<string, string>)
      reads this
      ensures "OPENCLAW_HOME" in e && "OPENCLAW_CONFIG_PATH" in e && "PATH" in e && "NO_COLOR" in e && "CI" in e
      ensures e["OPENCLAW_HOME"] == homeDir && e["OPENCLAW_CONFIG_PATH"] == ConfigPath()
      ensures e["PATH"] == NpmBin() + PathSeparator + Get(inherited, "PATH", "")
      ensures e["NO_COLOR"] == "1" && e["CI"] == "1"
      ensures model.apiKey != "" ==> "CUSTOM_API_KEY" in e && e["CUSTOM_API_KEY"] == model.apiKey
      ensures gatewayToken.Some? && gatewayToken.value != ""
              ==> "OPENCLAW_GATEWAY_TOKEN" in e && e["OPENCLAW_GATEWAY_TOKEN"] == gatewayToken.value
      ensures forall k :: k in inherited && k !in Overridden() ==> k in e && e[k] == inherited[k]
      ensures model.apiKey == "" ==> ("CUSTOM_API_KEY" in e <==> "CUSTOM_API_KEY" in inherited)
      ensures model.apiKey == "" && "CUSTOM_API_KEY" in e ==> e["CUSTOM_API_KEY"] == inherited["CUSTOM_API_KEY"]
      ensures !(gatewayToken.Some? && gatewayToken.value != "") ==>
        ("OPENCLAW_GATEWAY_TOKEN" in e <==> "OPENCLAW_GATEWAY_TOKEN" in inherited) &&
        ("OPENCLAW_GATEWAY_TOKEN" in e ==> e["OPENCLAW_GATEWAY_TOKEN"] == inherited["OPENCLAW_GATEWAY_TOKEN"])
      ensures forall k :: k in e ==> k in inherited || k in Overridden()
    {
      var e := inherited["OPENCLAW_HOME" := homeDir]["OPENCLAW_CONFIG_PATH" := ConfigPath()]
                        ["PATH" := NpmBin() + PathSeparator + Get(inherited, "PATH", "")]
                        ["NO_COLOR" := "1"]["CI" := "1"];
      var withKey := if model.apiKey != "" then e["CUSTOM_API_KEY" := model.apiKey] else e;
      if gatewayToken.Some? && gatewayToken.value != "" then withKey["OPENCLAW_GATEWAY_TOKEN" := gatewayToken.value]
      else withKey
    }

    function Overridden(): set<string> {
      {"OPENCLAW_HOME", "OPENCLAW_CONFIG_PATH", "PATH", "NO_COLOR", "CI", "CUSTOM_API_KEY", "OPENCLAW_GATEWAY_TOKEN"}
    }

    /** `write_config`: only a pre-generated gateway token is kept; no file is written. */
    method WriteConfig(token: string)
      modifies this
      ensures gatewayToken == Some(token) && providerId == old(providerId)
    {
      gatewayToken := Some(token);
    }

    /**
      `_read_back_config` on the file onboard wrote (`None` when it is missing): the provider id
      comes from the model reference, and a non-empty written token different from ours is adopted.
    */
    method ReadBackConfig(written: Option<WrittenConfig>)
      modifies this
      ensures written.None? ==> gatewayToken == old(gatewayToken) && providerId == old(providerId)
      ensures written.Some? ==> providerId == ProviderId(ReferenceOf(written.value.model))
      ensures written.Some? && written.value.token.Some? && written.value.token.value != ""
              ==> gatewayToken == written.value.token
      ensures written.Some? && (written.value.token.None? || written.value.token.value == "")
              ==> gatewayToken == old(gatewayToken)
    {
      if written.None? {
        return;
      }
      var cfgFile := written.value;
      providerId := ProviderId(ReferenceOf(cfgFile.model));
      match cfgFile.token
      case Some(t) =>
        if t != "" && Some(t) != gatewayToken {
          gatewayToken := Some(t);
        }
      case None =>
    }

    /** The `openclaw onboard` arguments: the secret flags appear only for non-empty secrets. */
    function OnboardCommand(): (cmd: seq<string>)
      reads this
      ensures |cmd| >= 2 && cmd[..2] == ["openclaw", "onboard"]
      ensures gatewayToken.Some? && gatewayToken.value != "" ==> "--gateway-token" in cmd && gatewayToken.value in cmd
      ensures model.apiKey != "" ==> cmd[|cmd| - 2..] == ["--custom-api-key", model.apiKey]
    {
      var base := ["openclaw", "onboard", "--non-interactive", "--accept-risk", "--mode", "local",
                   "--auth-choice", model.authChoice, "--custom-base-url", model.baseUrl,
                   "--custom-model-id", model.modelId, "--custom-compatibility", model.compatibility,
                   "--gateway-port", IntToString(cfg.gatewayPort), "--gateway-bind", cfg.gatewayBind,
                   "--gateway-auth", "token", "--skip-skills", "--skip-health", "--skip-channels",
                   "--workspace", WorkspaceDir()];
      assert base[..2] == ["openclaw", "onboard"];
      var withToken := if gatewayToken.Some? && gatewayToken.value != "" then base + ["--gateway-token", gatewayToken.value] else base;
      if model.apiKey != "" then withToken + ["--custom-api-key", model.apiKey] else withToken
    }

    /** The onboard command as logged: the API key and then the gateway token replaced by `***`. */
    function RedactedOnboard(): string
      reads this
    {
      var line := Join(OnboardCommand(), " ");
      var noKey := if model.apiKey != "" then Replace(line, model.apiKey, "***") else line;
      if gatewayToken.Some? && gatewayToken.value != "" then Replace(noKey, gatewayToken.value, "***") else noKey
    }
  }

  /** Secrets without `*` never appear in the logged onboard command. */
  lemma RedactedHidesSecrets(env: OpenClawEnvironment, k: nat)
    requires env.model.apiKey == [] || NoChar(env.model.apiKey, '*')
    requires env.gatewayToken.None? || NoChar(env.gatewayToken.value, '*')
    ensures env.model.apiKey != "" ==> !OccursAt(env.RedactedOnboard(), env.model.apiKey, k)
    ensures env.gatewayToken.Some? && env.gatewayToken.value != ""
            ==> !OccursAt(env.RedactedOnboard(), env.gatewayToken.value, k)
  {
    var line := Join(env.OnboardCommand(), " ");
    var key := env.model.apiKey;
    var stars := "***";
    assert AllChar(stars, '*');
    var noKey := if key != "" then Replace(line, key, stars) else line;
    if key != "" {
      forall i: nat ensures !OccursAt(noKey, key, i) {
        ReplaceRemoves(line, key, stars, i);
      }
    }
    if env.gatewayToken.Some? && env.gatewayToken.value != "" {
      var token := env.gatewayToken.value;
      ReplaceRemoves(noKey, token, stars, k);
      if key != "" {
        ReplaceKeepsAbsent(noKey, token, stars, key, k);
      }
    }
  }
}
