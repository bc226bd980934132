/**
  Benchmark configuration: environment-variable expansion in configured strings, the
  parsing of prompt variants (named variants first, a legacy flat prompt list second),
  model entries with their defaults, and the expected-field maps of the templates.

  A YAML document is a `Yaml` value; a mapping keeps its entries in document order, as a
  Python dict loaded from YAML does. The process environment is a `map<string, string>`.
*/
module Config {
  import opened Common
  import opened Text
  import Verify

  // ---------------------------------------------------------------------------------------
  // Constants

  /** The smallest context window the agent runtime accepts. */
  const MinContextWindow: int := 16000
  /** Any larger context window is clamped to this. */
  const MaxContextWindow: int := 128000
  /** The context window assumed when none is configured or reported. */
  const DefaultContextWindow: int := 128000

  // ---------------------------------------------------------------------------------------
  // Environment expansion: \$\{([A-Za-z_][A-Za-z0-9_]*)(?::-(.*?))?\}|\$([A-Za-z_][A-Za-z0-9_]*)

  predicate IdentStart(c: char) { IsAsciiLetter(c) || c == '_' }

  predicate IdentChar(c: char) { IsAsciiLetter(c) || IsDigit(c) || c == '_' }

  /** A variable name as the pattern reads it. */
  predicate IsIdent(v: string) {
    v != [] && IdentStart(v[0]) && forall i :: 0 <= i < |v| ==> IdentChar(v[i])
  }

  /** The end of the run `[A-Za-z0-9_]*` that starts at `i`. */
  function IdentEnd(s: string, i: nat): (k: nat)
    requires i <= |s|
    ensures i <= k <= |s|
    ensures forall j :: i <= j < k ==> IdentChar(s[j])
    ensures k < |s| ==> !IdentChar(s[k])
    decreases |s| - i
  {
    if i < |s| && IdentChar(s[i]) then IdentEnd(s, i + 1) else i
  }

  /**
    The lazy `(.*?)\}` from `i`: the first `}`, provided no `\n` comes before it (`.` does
    not match a newline).
  */
  function CloseBrace(s: string, i: nat): (r: Option<nat>)
    requires i <= |s|
    ensures r.Some? ==> i <= r.value < |s| && s[r.value] == '}'
    ensures r.Some? ==> forall j :: i <= j < r.value ==> s[j] != '}' && s[j] != '\n'
    ensures r.None? ==> forall j :: i <= j < |s| && s[j] == '}' ==> exists n :: i <= n < j && s[n] == '\n'
    decreases |s| - i
  {
    if i == |s| || s[i] == '\n' then None
    else if s[i] == '}' then Some(i)
    else CloseBrace(s, i + 1)
  }

  /** A reference matched at some position: its variable, its `:-` default, and where it ends. */
  datatype EnvRef =
    | Braced(name: string, default: Option<string>, end: nat)
    | Bare(name: string, end: nat)

  /** The match of the pattern at `i`, trying the braced alternative first. */
  function RefAt(s: string, i: nat): (r: Option<EnvRef>)
    requires i < |s|
    ensures r.Some? ==> s[i] == '$' && i < r.value.end <= |s| && IsIdent(r.value.name)
  {
    if s[i] != '$' || i + 1 == |s| then None
    else if s[i + 1] == '{' then
      if i + 2 < |s| && IdentStart(s[i + 2]) then
        var e := IdentEnd(s, i + 3);
        if e < |s| && s[e] == '}' then Some(Braced(s[i + 2..e], None, e + 1))
        else if e + 1 < |s| && s[e] == ':' && s[e + 1] == '-' then
          match CloseBrace(s, e + 2)
          case Some(k) => Some(Braced(s[i + 2..e], Some(s[e + 2..k]), k + 1))
          case None => None
        else None
      else None
    else if IdentStart(s[i + 1]) then
      var e := IdentEnd(s, i + 2);
      Some(Bare(s[i + 1..e], e))
    else None
  }

  /** What a reference is replaced by: the variable's value, else the default, else the reference itself. */
  function Replacement(s: string, i: nat, m: EnvRef, env: map<string, string>): string
    requires i <= m.end <= |s|
  {
    match m
    case Braced(name, default, end) =>
      if name in env then env[name] else default.GetOr(s[i..end])
    case Bare(name, end) => Get(env, name, s[i..end])
  }

  /** `_ENV_RE.sub` from position `i`: references replaced left to right, replacements not rescanned. */
  function ExpandFrom(s: string, i: nat, env: map<string, string>): string
    requires i <= |s|
    decreases |s| - i
  {
    if i == |s| then ""
    else
      match RefAt(s, i)
      case None => [s[i]] + ExpandFrom(s, i + 1, env)
      case Some(m) => Replacement(s, i, m, env) + ExpandFrom(s, m.end, env)
  }

  /** `_expand_env`. */
  function ExpandEnv(s: string, env: map<string, string>): string {
    ExpandFrom(s, 0, env)
  }

  /** Text without `$` is copied unchanged. */
  lemma {:induction false} ExpandFromNoDollar(s: string, i: nat, env: map<string, string>)
    requires i <= |s| && forall j :: i <= j < |s| ==> s[j] != '$'
    ensures ExpandFrom(s, i, env) == s[i..]
    decreases |s| - i
  {
    if i < |s| {
      ExpandFromNoDollar(s, i + 1, env);
      assert s[i..] == [s[i]] + s[i + 1..];
    }
  }

  /** A string without `$` is left unchanged. */
  lemma ExpandNoDollar(s: string, env: map<string, string>)
    requires NoChar(s, '$')
    ensures ExpandEnv(s, env) == s
  {
    ExpandFromNoDollar(s, 0, env);
  }

  /** `${VAR}` becomes the variable's value when it is set (that value is not expanded again), else stays. */
  lemma ExpandBraced(v: string, env: map<string, string>)
    requires IsIdent(v)
    ensures var s := "${" + v + "}"; ExpandEnv(s, env) == if v in env then env[v] else s
  {
    var s := "${" + v + "}";
    var e := 2 + |v|;
    assert s[0] == '$' && s[1] == '{' && s[e] == '}';
    assert forall j :: 2 <= j < e ==> s[j] == v[j - 2];
    assert IdentEnd(s, 3) == e;
    assert s[2..e] == v;
    assert s[0..e + 1] == s;
    assert RefAt(s, 0) == Some(Braced(v, None, e + 1));
    assert ExpandFrom(s, |s|, env) == "";
    assert ExpandFrom(s, 0, env) == Replacement(s, 0, Braced(v, None, e + 1), env) + ExpandFrom(s, |s|, env);
  }

  /** `${VAR:-d}` becomes the variable's value when it is set, else `d`, which may be empty. */
  lemma ExpandBracedDefault(v: string, d: string, env: map<string, string>)
    requires IsIdent(v) && NoChar(d, '}') && NoChar(d, '\n')
    ensures ExpandEnv("${" + v + ":-" + d + "}", env) == if v in env then env[v] else d
  {
    var s := "${" + v + ":-" + d + "}";
    var e := 2 + |v|;
    assert s[0] == '$' && s[1] == '{' && s[e] == ':' && s[e + 1] == '-' && s[|s| - 1] == '}';
    assert forall j :: 2 <= j < e ==> s[j] == v[j - 2];
    assert forall j :: e + 2 <= j < |s| - 1 ==> s[j] == d[j - e - 2];
    assert IdentEnd(s, 3) == e;
    assert CloseBrace(s, e + 2) == Some(|s| - 1);
    assert s[2..e] == v;
    assert s[e + 2..|s| - 1] == d;
    assert RefAt(s, 0) == Some(Braced(v, Some(d), |s|));
    assert ExpandFrom(s, |s|, env) == "";
    assert ExpandFrom(s, 0, env) == Replacement(s, 0, Braced(v, Some(d), |s|), env) + ExpandFrom(s, |s|, env);
  }

  /** Bare `$VAR` becomes the variable's value when it is set, else stays. */
  lemma ExpandBare(v: string, env: map<string, string>)
    requires IsIdent(v)
    ensures var s := "$" + v; ExpandEnv(s, env) == if v in env then env[v] else s
  {
    var s := "$" + v;
    assert s[0] == '$';
    assert forall j :: 1 <= j < |s| ==> s[j] == v[j - 1];
    assert IdentEnd(s, 2) == |s|;
    assert s[1..] == v;
    assert s[0..|s|] == s;
    assert RefAt(s, 0) == Some(Bare(v, |s|));
    assert ExpandFrom(s, |s|, env) == "";
    assert ExpandFrom(s, 0, env) == Replacement(s, 0, Bare(v, |s|), env) + ExpandFrom(s, |s|, env);
  }

  // ---------------------------------------------------------------------------------------
  // YAML values

  /** A value of a loaded YAML document; a float is a finite real. */
  datatype Yaml =
    | Str(s: string)
    | Int(i: int)
    | Bool(b: bool)
    | Float(x: real)
    | Null
    | List(items: seq<Yaml>)
    | Dict(entries: seq<(string, Yaml)>)

  /** The first index at or after `i` whose entry has the key. */
  function KeyIndex(entries: seq<(string, Yaml)>, key: string, i: nat): (r: Option<nat>)
    requires i <= |entries|
    ensures r.Some? ==> i <= r.value < |entries| && entries[r.value].0 == key
    ensures r.Some? ==> forall j :: i <= j < r.value ==> entries[j].0 != key
    ensures r.None? ==> forall j :: i <= j < |entries| ==> entries[j].0 != key
    decreases |entries| - i
  {
    if i == |entries| then None
    else if entries[i].0 == key then Some(i)
    else KeyIndex(entries, key, i + 1)
  }

  /** `d.get(key)` on a mapping's entries (the keys of a loaded mapping are distinct). */
  function Lookup(entries: seq<(string, Yaml)>, key: string): (r: Option<Yaml>)
    ensures r.None? ==> forall j :: 0 <= j < |entries| ==> entries[j].0 != key
    ensures r.Some? ==> (key, r.value) in entries
  {
    match KeyIndex(entries, key, 0)
    case Some(j) => Some(entries[j].1)
    case None => None
  }

  /** `d.get(key, default)`. */
  function LookupOr(entries: seq<(string, Yaml)>, key: string, default: Yaml): Yaml {
    Lookup(entries, key).GetOr(default)
  }

  /** `int(x)` on a float: the integer part, truncated toward zero. */
  function TruncReal(x: real): (r: int)
    ensures 0.0 <= x ==> r as real <= x < r as real + 1.0
    ensures x < 0.0 ==> r as real - 1.0 < x <= r as real
  {
    if x >= 0.0 then x.Floor else -((-x).Floor)
  }

  /**
    Python's `int(v)` on a YAML value: an integer as it is, a boolean as 0 or 1, a float
    truncated toward zero, a string parsed after trimming; null, a list or a mapping is a
    `TypeError`.
  */
  function ToInt(v: Yaml, key: string): (r: Result<int>)
    ensures v.Int? ==> r == Ok(v.i)
    ensures v.Bool? ==> r == Ok(if v.b then 1 else 0)
    ensures v.Float? ==> r.Ok? && (0.0 <= v.x ==> r.value as real <= v.x < r.value as real + 1.0)
                              && (v.x < 0.0 ==> r.value as real - 1.0 < v.x <= r.value as real)
    ensures v.Str? ==> (r.Ok? <==> ParseInt(Strip(v.s)).Some?) && (r.Ok? ==> ParseInt(Strip(v.s)) == Some(r.value))
    ensures v.Null? || v.List? || v.Dict? ==> r.Err?
  {
    match v
    case Int(i) => Ok(i)
    case Bool(b) => Ok(if b then 1 else 0)
    case Float(x) => Ok(TruncReal(x))
    case Str(s) => (match ParseInt(Strip(s)) case Some(i) => Ok(i) case None => Err("invalid literal for int(): " + key))
    case _ => Err("int() argument: " + key)
  }

  /** A string-valued entry, or its default when absent; any other value is refused. */
  function StrOr(entries: seq<(string, Yaml)>, key: string, default: string): (r: Result<string>)
    ensures Lookup(entries, key).None? ==> r == Ok(default)
    ensures r.Ok? && Lookup(entries, key).Some? ==> Lookup(entries, key) == Some(Str(r.value))
    ensures r.Ok? <==> Lookup(entries, key).None? || Lookup(entries, key).value.Str?
    ensures r.Err? ==> r.message == "not a string: " + key
  {
    match Lookup(entries, key)
    case None => Ok(default)
    case Some(Str(s)) => Ok(s)
    case Some(_) => Err("not a string: " + key)
  }

  /** A required string-valued entry: its absence is a `KeyError`; any other value is refused. */
  function StrRequired(entries: seq<(string, Yaml)>, key: string): (r: Result<string>)
    ensures Lookup(entries, key).None? ==> r == Err("KeyError: " + key)
    ensures r.Ok? <==> Lookup(entries, key).Some? && Lookup(entries, key).value.Str?
    ensures r.Ok? ==> Lookup(entries, key) == Some(Str(r.value))
    ensures Lookup(entries, key).Some? && !Lookup(entries, key).value.Str? ==> r == Err("not a string: " + key)
  {
    match Lookup(entries, key)
    case None => Err("KeyError: " + key)
    case Some(Str(s)) => Ok(s)
    case Some(_) => Err("not a string: " + key)
  }

  // ---------------------------------------------------------------------------------------
  // Models

  datatype ModelConfig = ModelConfig(
    name: string,
    provider: string,
    authChoice: string,
    baseUrl: string,
    modelId: string,
    apiKey: string,
    compatibility: string,
    contextWindow: int)

  /** `ModelConfig.from_dict`: the fields read in declaration order, the first failure reported. */
  function ModelFromDict(d: seq<(string, Yaml)>, env: map<string, string>): Result<ModelConfig>
  {
    var name := StrRequired(d, "name");
    var provider := StrOr(d, "provider", "custom");
    var auth := StrOr(d, "auth_choice", "custom-api-key");
    var baseUrl := StrRequired(d, "base_url");
    var modelId := StrRequired(d, "model_id");
    var apiKey := StrOr(d, "api_key", "");
    var compat := StrOr(d, "compatibility", "openai");
    var window := ToInt(LookupOr(d, "context_window", Int(DefaultContextWindow)), "context_window");
    if name.Err? then Err(name.message)
    else if provider.Err? then Err(provider.message)
    else if auth.Err? then Err(auth.message)
    else if baseUrl.Err? then Err(baseUrl.message)
    else if modelId.Err? then Err(modelId.message)
    else if apiKey.Err? then Err(apiKey.message)
    else if compat.Err? then Err(compat.message)
    else if window.Err? then Err(window.message)
    else Ok(ModelConfig(name.value, provider.value, auth.value, baseUrl.value, modelId.value,
                        ExpandEnv(apiKey.value, env), compat.value, window.value))
  }

  /**
    A model read from its entry carries the required strings as written, the optional strings
    as written when present and the defaults "custom", "custom-api-key", "openai" and "" when
    absent, the window as `int()` reads it, and the API key with the environment expanded.
  */
  lemma ModelFromDictFields(d: seq<(string, Yaml)>, env: map<string, string>)
    ensures Lookup(d, "name").None? ==> ModelFromDict(d, env) == Err("KeyError: name")
    ensures var r := ModelFromDict(d, env); r.Ok? ==>
      Lookup(d, "name") == Some(Str(r.value.name)) &&
      Lookup(d, "base_url") == Some(Str(r.value.baseUrl)) &&
      Lookup(d, "model_id") == Some(Str(r.value.modelId))
    ensures var r := ModelFromDict(d, env); r.Ok? ==>
      (Lookup(d, "provider").None? ==> r.value.provider == "custom") &&
      (Lookup(d, "auth_choice").None? ==> r.value.authChoice == "custom-api-key") &&
      (Lookup(d, "compatibility").None? ==> r.value.compatibility == "openai") &&
      (Lookup(d, "api_key").None? ==> r.value.apiKey == "")
    ensures var r := ModelFromDict(d, env); r.Ok? ==>
      (Lookup(d, "provider").Some? ==> Lookup(d, "provider") == Some(Str(r.value.provider))) &&
      (Lookup(d, "auth_choice").Some? ==> Lookup(d, "auth_choice") == Some(Str(r.value.authChoice))) &&
      (Lookup(d, "compatibility").Some? ==> Lookup(d, "compatibility") == Some(Str(r.value.compatibility)))
    ensures var r := ModelFromDict(d, env); r.Ok? ==>
      ToInt(LookupOr(d, "context_window", Int(DefaultContextWindow)), "context_window") == Ok(r.value.contextWindow)
    ensures var r := ModelFromDict(d, env); r.Ok? && Lookup(d, "api_key").Some? ==>
      Lookup(d, "api_key").value.Str? && r.value.apiKey == ExpandEnv(Lookup(d, "api_key").value.s, env)
  {
    ExpandNoDollar("", env);
    hide StrOr, StrRequired, ToInt, LookupOr, ExpandEnv, Lookup;
    var name := StrRequired(d, "name");
    var provider := StrOr(d, "provider", "custom");
    var auth := StrOr(d, "auth_choice", "custom-api-key");
    var baseUrl := StrRequired(d, "base_url");
    var modelId := StrRequired(d, "model_id");
    var apiKey := StrOr(d, "api_key", "");
    var compat := StrOr(d, "compatibility", "openai");
    var window := ToInt(LookupOr(d, "context_window", Int(DefaultContextWindow)), "context_window");
    if ModelFromDict(d, env).Ok? {
      assert name.Ok? && provider.Ok? && auth.Ok? && baseUrl.Ok? && modelId.Ok? && apiKey.Ok? && compat.Ok? && window.Ok?;
      assert ModelFromDict(d, env).value == ModelConfig(name.value, provider.value, auth.value, baseUrl.value,
        modelId.value, ExpandEnv(apiKey.value, env), compat.value, window.value);
    }
  }

  predicate StrPresent(d: seq<(string, Yaml)>, key: string) {
    Lookup(d, key).Some? && Lookup(d, key).value.Str?
  }

  predicate StrOrAbsent(d: seq<(string, Yaml)>, key: string) {
    Lookup(d, key).None? || Lookup(d, key).value.Str?
  }

  /** A model entry with its required keys present as strings and nothing malformed is accepted. */
  lemma ModelFromDictAccepts(d: seq<(string, Yaml)>, env: map<string, string>)
    requires StrPresent(d, "name") && StrPresent(d, "base_url") && StrPresent(d, "model_id")
    requires StrOrAbsent(d, "provider") && StrOrAbsent(d, "auth_choice")
    requires StrOrAbsent(d, "api_key") && StrOrAbsent(d, "compatibility")
    requires ToInt(LookupOr(d, "context_window", Int(DefaultContextWindow)), "context_window").Ok?
    ensures ModelFromDict(d, env).Ok?
  {
  }

  // ---------------------------------------------------------------------------------------
  // Expected fields

  /** The values injected into the prompt templates. */
  datatype BootstrapFields = BootstrapFields(
    userName: string,
    userTimezone: string,
    userPreferences: string,
    agentName: string,
    agentCreature: string,
    agentVibe: string,
    agentEmoji: string)

  const DefaultFields := BootstrapFields(
    "Alex", "Europe/Rome", "concise answers, no filler, direct and helpful",
    "Coral", "space lobster", "warm and casual", "\U{1f99e}")

  /** `identity_expected`: the agent's four fields under the IDENTITY.md keys. */
  function IdentityExpected(bf: BootstrapFields): (m: map<string, string>) {
    map["name" := bf.agentName, "creature" := bf.agentCreature, "vibe" := bf.agentVibe, "emoji" := bf.agentEmoji]
  }

  /** `user_expected`: the user's two fields under the USER.md keys. */
  function UserExpected(bf: BootstrapFields): (m: map<string, string>) {
    map["name" := bf.userName, "timezone" := bf.userTimezone]
  }

  /** The expected maps are keyed by exactly the fields the verification requires. */
  lemma ExpectedKeysAreRequired(bf: BootstrapFields)
    ensures IdentityExpected(bf).Keys == Verify.IdentityRequired
    ensures UserExpected(bf).Keys == Verify.UserRequired
    ensures IdentityExpected(bf)["emoji"] == bf.agentEmoji && UserExpected(bf)["timezone"] == bf.userTimezone
  {
  }

  // ---------------------------------------------------------------------------------------
  // Prompt variants

  datatype PromptVariant = PromptVariant(name: string, prompts: seq<string>)

  /**
    What `str.format_map` does to one prompt: the formatted text, a `KeyError` for a
    placeholder with no value, or any other failure (a stray brace, say), which propagates.
  */
  datatype FormatOutcome = Formatted(text: string) | MissingKey | Invalid(message: string)

  /** One prompt through `_interpolate_prompts`: a `KeyError` leaves the template as it is. */
  function InterpolateOne(p: Yaml, format: string -> FormatOutcome): (r: Result<string>)
    ensures r.Ok? <==> p.Str? && !format(p.s).Invalid?
    ensures p.Str? && format(p.s).Formatted? ==> r == Ok(format(p.s).text)
    ensures p.Str? && format(p.s).MissingKey? ==> r == Ok(p.s)
    ensures p.Str? && format(p.s).Invalid? ==> r == Err(format(p.s).message)
  {
    match p
    case Str(s) =>
      (match format(s)
       case Formatted(t) => Ok(t)
       case MissingKey => Ok(s)
       case Invalid(msg) => Err(msg))
    case _ => Err("format_map on a non-string prompt")
  }

  /** The first `n` prompts interpolated, or the first failure among them. */
  function Interpolated(prompts: seq<Yaml>, format: string -> FormatOutcome, n: nat): (r: Result<seq<string>>)
    requires n <= |prompts|
  {
    if n == 0 then Ok([])
    else
      var prev := Interpolated(prompts, format, n - 1);
      if prev.Err? then prev
      else
        match InterpolateOne(prompts[n - 1], format)
        case Ok(t) => Ok(prev.value + [t])
        case Err(msg) => Err(msg)
  }

  /** Interpolation keeps every prompt, in order, each formatted or left as written. */
  lemma {:induction false} InterpolatedPrompts(prompts: seq<Yaml>, format: string -> FormatOutcome, n: nat)
    requires n <= |prompts|
    ensures var r := Interpolated(prompts, format, n);
      r.Ok? <==> forall i :: 0 <= i < n ==> InterpolateOne(prompts[i], format).Ok?
    ensures var r := Interpolated(prompts, format, n);
      r.Ok? ==> |r.value| == n && forall i :: 0 <= i < n ==> r.value[i] == InterpolateOne(prompts[i], format).value
  {
    if n > 0 {
      InterpolatedPrompts(prompts, format, n - 1);
    }
  }

  /** `_interpolate_prompts`, appending one prompt at a time. */
  method InterpolatePrompts(prompts: seq<Yaml>, format: string -> FormatOutcome) returns (r: Result<seq<string>>)
    ensures r == Interpolated(prompts, format, |prompts|)
  {
    var result: seq<string> := [];
    var i := 0;
    while i < |prompts|
      invariant 0 <= i <= |prompts|
      invariant Interpolated(prompts, format, i) == Ok(result)
    {
      var one := InterpolateOne(prompts[i], format);
      if one.Err? {
        r := Err(one.message);
        ErrorPersists(prompts, format, i + 1, |prompts|);
        return;
      }
      result := result + [one.value];
      i := i + 1;
    }
    r := Ok(result);
  }

  /** Once a prefix fails, every longer prefix fails with the same message. */
  lemma {:induction false} ErrorPersists(prompts: seq<Yaml>, format: string -> FormatOutcome, n: nat, m: nat)
    requires n <= m <= |prompts| && Interpolated(prompts, format, n).Err?
    ensures Interpolated(prompts, format, m) == Interpolated(prompts, format, n)
    decreases m - n
  {
    if n < m {
      ErrorPersists(prompts, format, n, m - 1);
    }
  }

  /** The variant a `prompt_variants` entry gives: a list, a single string, or nothing for any other type. */
  function VariantOf(name: string, v: Yaml, format: string -> FormatOutcome): Result<Option<PromptVariant>>
  {
    match v
    case List(items) =>
      (match Interpolated(items, format, |items|)
       case Ok(ps) => Ok(Some(PromptVariant(name, ps)))
       case Err(m) => Err(m))
    case Str(_) =>
      (match Interpolated([v], format, 1)
       case Ok(ps) => Ok(Some(PromptVariant(name, ps)))
       case Err(m) => Err(m))
    case _ => Ok(None)
  }

  /** The variants of the first `n` entries of `prompt_variants`, in order. */
  function VariantsUpTo(entries: seq<(string, Yaml)>, format: string -> FormatOutcome, n: nat): Result<seq<PromptVariant>>
    requires n <= |entries|
  {
    if n == 0 then Ok([])
    else
      var prev := VariantsUpTo(entries, format, n - 1);
      if prev.Err? then prev
      else
        match VariantOf(entries[n - 1].0, entries[n - 1].1, format)
        case Err(m) => Err(m)
        case Ok(None) => prev
        case Ok(Some(pv)) => Ok(prev.value + [pv])
  }

  /** The variant-parsing part of `BenchmarkConfig.from_dict`. */
  function PromptVariants(d: seq<(string, Yaml)>, format: string -> FormatOutcome): Result<seq<PromptVariant>> {
    var raw := LookupOr(d, "prompt_variants", Dict([]));
    if raw.Dict? && raw.entries != [] then VariantsUpTo(raw.entries, format, |raw.entries|)
    else
      match Lookup(d, "bootstrap_prompts")
      case Some(List(items)) =>
        (match Interpolated(items, format, |items|)
         case Ok(ps) => Ok([PromptVariant("default", ps)])
         case Err(m) => Err(m))
      case _ => Ok([])
  }

  /** An entry of `prompt_variants` that gives a variant: a list of prompts or a single prompt. */
  predicate PromptEntry(v: Yaml) {
    v.List? || v.Str?
  }

  /** The prompts such an entry stands for: the list's items, or the one string. */
  function EntryPrompts(v: Yaml): seq<Yaml>
    requires PromptEntry(v)
  {
    if v.List? then v.items else [v]
  }

  /** How many of the first `n` entries give a variant. */
  function Shown(entries: seq<(string, Yaml)>, n: nat): (c: nat)
    requires n <= |entries|
    ensures c <= n
    ensures forall j :: 0 <= j < n && PromptEntry(entries[j].1) ==> Shown(entries, j) < c
  {
    if n == 0 then 0 else Shown(entries, n - 1) + (if PromptEntry(entries[n - 1].1) then 1 else 0)
  }

  /**
    Parsing succeeds iff every list or string entry interpolates; then the variants are those
    entries alone, in order, each named by its key and holding its prompts interpolated
    (a single string becomes a one-prompt list), and every other entry is skipped.
  */
  lemma {:induction false} VariantsFromEntries(entries: seq<(string, Yaml)>, format: string -> FormatOutcome, n: nat)
    requires n <= |entries|
    ensures var r := VariantsUpTo(entries, format, n);
      r.Ok? <==> forall j :: 0 <= j < n && PromptEntry(entries[j].1) ==>
        Interpolated(EntryPrompts(entries[j].1), format, |EntryPrompts(entries[j].1)|).Ok?
    ensures var r := VariantsUpTo(entries, format, n); r.Ok? ==> |r.value| == Shown(entries, n)
    ensures var r := VariantsUpTo(entries, format, n);
      r.Ok? ==> forall j :: 0 <= j < n && PromptEntry(entries[j].1) ==>
        r.value[Shown(entries, j)] ==
          PromptVariant(entries[j].0, Interpolated(EntryPrompts(entries[j].1), format, |EntryPrompts(entries[j].1)|).value)
    decreases n
  {
    hide Interpolated;
    if n > 0 {
      VariantsFromEntries(entries, format, n - 1);
      var (name, v) := entries[n - 1];
      if PromptEntry(v) {
        assert VariantOf(name, v, format) == match Interpolated(EntryPrompts(v), format, |EntryPrompts(v)|)
          case Ok(ps) => Ok(Some(PromptVariant(name, ps)))
          case Err(m) => Err(m);
      } else {
        assert VariantOf(name, v, format) == Ok(None);
      }
    }
  }

  /** A non-empty `prompt_variants` mapping takes precedence: `bootstrap_prompts` is then never read. */
  lemma VariantsTakePrecedence(d: seq<(string, Yaml)>, d2: seq<(string, Yaml)>, format: string -> FormatOutcome)
    requires Lookup(d, "prompt_variants") == Lookup(d2, "prompt_variants")
    requires var raw := Lookup(d, "prompt_variants"); raw.Some? && raw.value.Dict? && raw.value.entries != []
    ensures PromptVariants(d, format) == PromptVariants(d2, format)
  {
  }

  /** Without named variants, a legacy list becomes the one variant "default", and anything else gives none. */
  lemma LegacyPrompts(d: seq<(string, Yaml)>, format: string -> FormatOutcome)
    requires var raw := Lookup(d, "prompt_variants"); raw.None? || !raw.value.Dict? || raw.value.entries == []
    ensures var r := PromptVariants(d, format); var bp := Lookup(d, "bootstrap_prompts");
      (bp.Some? && bp.value.List? && Interpolated(bp.value.items, format, |bp.value.items|).Ok? ==>
        r == Ok([PromptVariant("default", Interpolated(bp.value.items, format, |bp.value.items|).value)])) &&
      (!(bp.Some? && bp.value.List?) ==> r == Ok([]))
  {
  }

  /** The parsing loop of `from_dict`, appending one variant per list or string entry. */
  method ParseVariants(entries: seq<(string, Yaml)>, format: string -> FormatOutcome) returns (r: Result<seq<PromptVariant>>)
    ensures r == VariantsUpTo(entries, format, |entries|)
  {
    var variants: seq<PromptVariant> := [];
    var i := 0;
    while i < |entries|
      invariant 0 <= i <= |entries|
      invariant VariantsUpTo(entries, format, i) == Ok(variants)
    {
      var (name, v) := entries[i];
      var one := VariantOf(name, v, format);
      if one.Err? {
        r := Err(one.message);
        VariantErrorPersists(entries, format, i + 1, |entries|);
        return;
      }
      if one.value.Some? {
        variants := variants + [one.value.value];
      }
      i := i + 1;
    }
    r := Ok(variants);
  }

  lemma {:induction false} VariantErrorPersists(entries: seq<(string, Yaml)>, format: string -> FormatOutcome, n: nat, m: nat)
    requires n <= m <= |entries| && VariantsUpTo(entries, format, n).Err?
    ensures VariantsUpTo(entries, format, m) == VariantsUpTo(entries, format, n)
    decreases m - n
  {
    if n < m {
      VariantErrorPersists(entries, format, n, m - 1);
    }
  }

  // ---------------------------------------------------------------------------------------
  // The whole configuration

  datatype BenchmarkConfig = BenchmarkConfig(
    promptVariants: seq<PromptVariant>,
    agentTurnTimeout: int,
    bootstrapTimeout: int,
    retries: int,
    runsPerModel: int,
    gatewayPort: int,
    gatewayBind: string,
    openclawHome: string,
    models: seq<ModelConfig>,
    bootstrapFields: BootstrapFields)

  /** `bootstrap_prompts`: the first variant's prompts, or none. */
  function BootstrapPrompts(cfg: BenchmarkConfig): (ps: seq<string>)
    ensures cfg.promptVariants == [] ==> ps == []
    ensures cfg.promptVariants != [] ==> ps == cfg.promptVariants[0].prompts
  {
    if cfg.promptVariants != [] then cfg.promptVariants[0].prompts else []
  }

  /**
    An integer-valued entry, or its default when absent. A boolean is Python's integer 0 or 1;
    any other value is refused.
  */
  function IntOr(entries: seq<(string, Yaml)>, key: string, default: int): (r: Result<int>)
    ensures Lookup(entries, key).None? ==> r == Ok(default)
    ensures Lookup(entries, key).Some? && Lookup(entries, key).value.Int? ==> r == Ok(Lookup(entries, key).value.i)
    ensures Lookup(entries, key).Some? && Lookup(entries, key).value.Bool? ==>
      r == Ok(if Lookup(entries, key).value.b then 1 else 0)
    ensures r.Err? <==> Lookup(entries, key).Some? && !Lookup(entries, key).value.Int? && !Lookup(entries, key).value.Bool?
  {
    match Lookup(entries, key)
    case None => Ok(default)
    case Some(Int(i)) => Ok(i)
    case Some(Bool(b)) => Ok(if b then 1 else 0)
    case Some(_) => Err("not an integer: " + key)
  }

  /**
    Iterating the `models` value: a list gives its entries; an empty mapping or an empty
    string gives none; anything else fails, on the first character or key that is not a
    mapping, or because the value is not iterable.
  */
  function ModelsOf(v: Yaml, env: map<string, string>): (r: Result<seq<ModelConfig>>)
    ensures v.List? ==> r == ModelsUpTo(v.items, env, |v.items|)
    ensures v == Dict([]) || v == Str("") ==> r == Ok([])
    ensures !v.List? && v != Dict([]) && v != Str("") ==> r.Err?
  {
    match v
    case List(items) => ModelsUpTo(items, env, |items|)
    case Dict(entries) => if entries == [] then Ok([]) else Err("model entry is not a mapping")
    case Str(s) => if s == "" then Ok([]) else Err("model entry is not a mapping")
    case _ => Err("models is not iterable")
  }

  /** One entry of `models`, which must be a mapping. */
  function ParseModel(item: Yaml, env: map<string, string>): Result<ModelConfig> {
    if item.Dict? then ModelFromDict(item.entries, env) else Err("model entry is not a mapping")
  }

  /** The first `n` model entries, each parsed in order; the first failure is reported. */
  function ModelsUpTo(items: seq<Yaml>, env: map<string, string>, n: nat): (r: Result<seq<ModelConfig>>)
    requires n <= |items|
    ensures r.Ok? ==> |r.value| == n
  {
    if n == 0 then Ok([])
    else
      var prev := ModelsUpTo(items, env, n - 1);
      if prev.Err? then prev
      else
        match ParseModel(items[n - 1], env)
        case Err(m) => Err(m)
        case Ok(mc) => Ok(prev.value + [mc])
  }

  /** Each parsed model is its entry read by `ModelFromDict`, in order. */
  lemma {:induction false} ModelsParsed(items: seq<Yaml>, env: map<string, string>, n: nat)
    requires n <= |items|
    ensures var r := ModelsUpTo(items, env, n);
      r.Ok? ==> forall i :: 0 <= i < n ==> ParseModel(items[i], env) == Ok(r.value[i])
    ensures var r := ModelsUpTo(items, env, n);
      r.Err? <==> exists i :: 0 <= i < n && ParseModel(items[i], env).Err?
  {
    hide ParseModel;
    if n > 0 {
      ModelsParsed(items, env, n - 1);
    }
  }

  /** `BenchmarkConfig.from_dict`, given the parsed bootstrap fields and the `format_map` they drive. */
  function ConfigFromDict(d: seq<(string, Yaml)>, env: map<string, string>, bf: BootstrapFields,
                          format: string -> FormatOutcome): (r: Result<BenchmarkConfig>)
    ensures r.Ok? ==> PromptVariants(d, format) == Ok(r.value.promptVariants) && r.value.bootstrapFields == bf
    ensures r.Ok? && Lookup(d, "agent_turn_timeout").None? ==> r.value.agentTurnTimeout == 120
    ensures r.Ok? && Lookup(d, "bootstrap_timeout").None? ==> r.value.bootstrapTimeout == 600
    ensures r.Ok? && Lookup(d, "retries").None? ==> r.value.retries == 1
    ensures r.Ok? && Lookup(d, "runs_per_model").None? ==> r.value.runsPerModel == 5
    ensures r.Ok? && Lookup(d, "gateway").None? ==> r.value.gatewayPort == 18789 && r.value.gatewayBind == "loopback"
    ensures r.Ok? && Lookup(d, "models").None? ==> r.value.models == []
    ensures r.Ok? ==> ModelsOf(LookupOr(d, "models", List([])), env) == Ok(r.value.models)
  {
    var gw := LookupOr(d, "gateway", Dict([]));
    var variants := PromptVariants(d, format);
    var turn := IntOr(d, "agent_turn_timeout", 120);
    var total := IntOr(d, "bootstrap_timeout", 600);
    var retries := IntOr(d, "retries", 1);
    var runs := ToInt(LookupOr(d, "runs_per_model", Int(5)), "runs_per_model");
    var home := StrOr(d, "openclaw_home", "");
    var models := LookupOr(d, "models", List([]));
    if variants.Err? then Err(variants.message)
    else if turn.Err? then Err(turn.message)
    else if total.Err? then Err(total.message)
    else if retries.Err? then Err(retries.message)
    else if runs.Err? then Err(runs.message)
    else if !gw.Dict? then Err("gateway is not a mapping")
    else
      var port := IntOr(gw.entries, "port", 18789);
      var bind := StrOr(gw.entries, "bind", "loopback");
      if port.Err? then Err(port.message)
      else if bind.Err? then Err(bind.message)
      else if home.Err? then Err(home.message)
      else
        match ModelsOf(models, env)
        case Err(m) => Err(m)
        case Ok(ms) =>
          Ok(BenchmarkConfig(variants.value, turn.value, total.value, retries.value, runs.value,
                             port.value, bind.value, home.value, ms, bf))
  }

  /**
    A configuration read from its mapping carries every configured setting as its reader
    takes it: the timeouts and retries as integers, the run count as `int()` reads it, the
    gateway's port and bind from the `gateway` mapping, and `openclaw_home` as written.
  */
  lemma ConfigFromDictFields(d: seq<(string, Yaml)>, env: map<string, string>, bf: BootstrapFields,
                             format: string -> FormatOutcome)
    ensures var r := ConfigFromDict(d, env, bf, format); r.Ok? ==>
      IntOr(d, "agent_turn_timeout", 120) == Ok(r.value.agentTurnTimeout) &&
      IntOr(d, "bootstrap_timeout", 600) == Ok(r.value.bootstrapTimeout) &&
      IntOr(d, "retries", 1) == Ok(r.value.retries) &&
      ToInt(LookupOr(d, "runs_per_model", Int(5)), "runs_per_model") == Ok(r.value.runsPerModel) &&
      StrOr(d, "openclaw_home", "") == Ok(r.value.openclawHome)
    ensures var r := ConfigFromDict(d, env, bf, format); r.Ok? ==>
      LookupOr(d, "gateway", Dict([])).Dict? &&
      IntOr(LookupOr(d, "gateway", Dict([])).entries, "port", 18789) == Ok(r.value.gatewayPort) &&
      StrOr(LookupOr(d, "gateway", Dict([])).entries, "bind", "loopback") == Ok(r.value.gatewayBind)
  {
    hide IntOr, StrOr, ToInt, LookupOr, PromptVariants, ModelsOf;
    var gw := LookupOr(d, "gateway", Dict([]));
    var variants := PromptVariants(d, format);
    var turn := IntOr(d, "agent_turn_timeout", 120);
    var total := IntOr(d, "bootstrap_timeout", 600);
    var retries := IntOr(d, "retries", 1);
    var runs := ToInt(LookupOr(d, "runs_per_model", Int(5)), "runs_per_model");
    var home := StrOr(d, "openclaw_home", "");
    var models := LookupOr(d, "models", List([]));
    if ConfigFromDict(d, env, bf, format).Ok? {
      assert variants.Ok? && turn.Ok? && total.Ok? && retries.Ok? && runs.Ok? && gw.Dict? && home.Ok?;
      var port := IntOr(gw.entries, "port", 18789);
      var bind := StrOr(gw.entries, "bind", "loopback");
      assert port.Ok? && bind.Ok? && ModelsOf(models, env).Ok?;
      assert ConfigFromDict(d, env, bf, format).value ==
        BenchmarkConfig(variants.value, turn.value, total.value, retries.value, runs.value,
                        port.value, bind.value, home.value, ModelsOf(models, env).value, bf);
    }
  }
}
