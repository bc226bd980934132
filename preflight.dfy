/**
  Pre-flight checks: the Node.js version gate, npm, the gateway port, one reachability probe
  per distinct model server and one availability check per model. Commands, sockets and HTTP
  requests are outside the model: their outcomes arrive as a `Probes` value.
*/
module Preflight {
  import opened Common
  import opened Text
  import opened Config

  /** One pre-flight check's outcome, with a hint on how to fix a failure. */
  datatype CheckResult = CheckResult(name: string, passed: bool, message: string, fixHint: string)

  /** The checks that failed, in the order they were run. */
  function FailedOf(checks: seq<CheckResult>): (r: seq<CheckResult>)
    ensures |r| <= |checks|
    ensures forall i :: 0 <= i < |r| ==> !r[i].passed && r[i] in checks
    ensures forall i :: 0 <= i < |checks| && !checks[i].passed ==> checks[i] in r
    ensures r == [] <==> forall i :: 0 <= i < |checks| ==> checks[i].passed
    decreases |checks|
  {
    if checks == [] then []
    else
      var c := checks[|checks| - 1];
      var init := checks[..|checks| - 1];
      assert checks == init + [c];
      FailedOf(init) + (if c.passed then [] else [c])
  }

  /** Filtering distributes over concatenation, so the failures keep the order of the checks. */
  lemma {:induction false} FailedOfAppend(a: seq<CheckResult>, b: seq<CheckResult>)
    ensures FailedOf(a + b) == FailedOf(a) + FailedOf(b)
    decreases |b|
  {
    if b != [] {
      var b' := b[..|b| - 1];
      assert (a + b)[..|a + b| - 1] == a + b';
      FailedOfAppend(a, b');
    } else {
      assert a + b == a;
    }
  }

  /** The report the checks are collected into. */
  class PreflightReport {
    var checks: seq<CheckResult>

    constructor()
      ensures checks == []
    {
      checks := [];
    }

    /** Every check passed, exactly when there is no failed check. */
    predicate AllPassed()
      reads this
      ensures AllPassed() <==> Failed() == []
    {
      forall i :: 0 <= i < |checks| ==> checks[i].passed
    }

    function Failed(): seq<CheckResult>
      reads this
    {
      FailedOf(checks)
    }

    method Add(c: CheckResult)
      modifies this
      ensures checks == old(checks) + [c]
    {
      checks := checks + [c];
    }
  }

  /** A command's return code and stripped output streams; -1 stands for a missing binary or a timeout. */
  datatype CommandOutcome = CommandOutcome(returnCode: int, stdout: string, stderr: string)

  /** What connecting to the gateway port found. */
  datatype PortProbe = InUse | Free | SocketError(reason: string)

  /** One entry of a model listing: a JSON object with its string fields, or any other value. */
  datatype Entry = NotObject | Object(id: Option<string>, model: Option<string>, name: Option<string>)

  /** The decoded body of a `/models` listing. */
  datatype Listing =
    | Unreadable                                                  // unreachable, or not JSON
    | NotObjectBody
    | JsonObject(data: Option<seq<Entry>>, models: Option<seq<Entry>>)  // the two known keys, when present

  /** The outcomes of everything the checks observe outside the process. */
  datatype Probes = Probes(
    node: CommandOutcome,
    npm: CommandOutcome,
    port: PortProbe,
    respondsOk: string -> bool,   // an HTTP GET of the URL answered with a status below 400
    listing: string -> Listing)   // the body an HTTP GET of the URL returned

  const NodeName := "Node.js"
  const MinNodeMajor := 22

  /** The major version at the start of `node --version`'s output: an optional `v`, then digits. */
  function NodeMajor(out: string): (r: Option<nat>)
    ensures r.Some? <==> if out != [] && out[0] == 'v' then 1 < |out| && IsDigit(out[1])
                         else out != [] && IsDigit(out[0])
  {
    var start := if out != [] && out[0] == 'v' then 1 else 0;
    var end := DigitsFrom(out, start);
    if end == start then None else Some(DigitsValue(out[start..end]))
  }

  /** `check_node`: Node.js is installed and its major version is at least 22. */
  function CheckNode(cmd: CommandOutcome): (c: CheckResult)
    ensures c.name == NodeName
    ensures c.passed <==> cmd.returnCode == 0 && NodeMajor(cmd.stdout).Some? && NodeMajor(cmd.stdout).value >= MinNodeMajor
    ensures cmd.returnCode != 0 ==> c.message == (if cmd.stderr != "" then cmd.stderr else "node not found")
    ensures cmd.returnCode == 0 && NodeMajor(cmd.stdout).None? ==> c.message == "Could not parse version from: " + cmd.stdout
    ensures cmd.returnCode == 0 && NodeMajor(cmd.stdout).Some? && NodeMajor(cmd.stdout).value < MinNodeMajor ==>
      c.message == "Found v" + LStrip(cmd.stdout, Only('v')) + " \U{2014} need \U{2265} 22"
    ensures c.passed ==> c.message == "v" + LStrip(cmd.stdout, Only('v')) && c.fixHint == ""
  {
    if cmd.returnCode != 0 then
      CheckResult(NodeName, false, if cmd.stderr != "" then cmd.stderr else "node not found",
                  "Install Node.js \U{2265} 22: https://nodejs.org/ or `brew install node@22`")
    else
      match NodeMajor(cmd.stdout)
      case None =>
        CheckResult(NodeName, false, "Could not parse version from: " + cmd.stdout, "Install Node.js \U{2265} 22")
      case Some(major) =>
        if major < MinNodeMajor then
          CheckResult(NodeName, false, "Found v" + LStrip(cmd.stdout, Only('v')) + " \U{2014} need \U{2265} 22",
                      "Upgrade Node.js: `nvm install 22` or `brew install node@22`")
        else
          CheckResult(NodeName, true, "v" + LStrip(cmd.stdout, Only('v')), "")
  }

  /** The digits of `n` at `start`, followed by a non-digit or the end, read back as `n`. */
  lemma DigitsAt(out: string, start: nat, n: nat, rest: string)
    requires rest == [] || !IsDigit(rest[0])
    requires start <= |out| && out[start..] == NatToString(n) + rest
    ensures DigitsFrom(out, start) == start + |NatToString(n)|
    ensures out[start..DigitsFrom(out, start)] == NatToString(n)
    ensures DigitsValue(out[start..DigitsFrom(out, start)]) == n
  {
    var digits := NatToString(n);
    var e := start + |digits|;
    assert forall j :: start <= j < e ==> out[j] == out[start..][j - start] == digits[j - start];
    assert e < |out| ==> out[e] == out[start..][|digits|] == rest[0];
    DigitsFromStops(out, start, e);
    assert out[start..e] == out[start..][..|digits|] == digits;
    NatToStringRoundTrip(n);
  }

  /** Scanning digits from `i` stops at `e` when `[i, e)` are digits and `e` is not. */
  lemma {:induction false} DigitsFromStops(s: string, i: nat, e: nat)
    requires i <= e <= |s| && (forall j :: i <= j < e ==> IsDigit(s[j])) && (e < |s| ==> !IsDigit(s[e]))
    ensures DigitsFrom(s, i) == e
    decreases e - i
  {
    if i < e {
      DigitsFromStops(s, i + 1, e);
    }
  }

  /** A version string `v<n>` followed by anything but a digit passes exactly when n is at least 22. */
  lemma NodeVersionGate(n: nat, rest: string, err: string)
    requires rest == [] || !IsDigit(rest[0])
    ensures CheckNode(CommandOutcome(0, "v" + NatToString(n) + rest, err)).passed <==> n >= 22
  {
    hide CheckNode;
    NodeMajorOf(NatToString(n) + rest, "v", n, rest);
    assert "v" + NatToString(n) + rest == "v" + (NatToString(n) + rest);
  }

  /** The unprefixed form `<n>` is read the same way. */
  lemma NodeVersionGateBare(n: nat, rest: string, err: string)
    requires rest == [] || !IsDigit(rest[0])
    ensures CheckNode(CommandOutcome(0, NatToString(n) + rest, err)).passed <==> n >= 22
  {
    hide CheckNode;
    NodeMajorOf(NatToString(n) + rest, "", n, rest);
    assert "" + (NatToString(n) + rest) == NatToString(n) + rest;
  }

  /** `<n>` after an optional `v`, then anything but a digit, has major version n. */
  lemma NodeMajorOf(tail: string, prefix: string, n: nat, rest: string)
    requires prefix == "v" || prefix == ""
    requires rest == [] || !IsDigit(rest[0])
    requires tail == NatToString(n) + rest
    ensures NodeMajor(prefix + tail) == Some(n)
  {
    var out := prefix + tail;
    var start := |prefix|;
    assert out[start..] == tail;
    assert prefix == "" ==> out[0] == NatToString(n)[0] && IsDigit(out[0]);
    assert prefix == "v" ==> out[0] == 'v';
    DigitsAt(out, start, n, rest);
  }

  /** `check_npm`: npm answers `--version`. */
  function CheckNpm(cmd: CommandOutcome): (c: CheckResult)
    ensures c.name == "npm" && (c.passed <==> cmd.returnCode == 0)
    ensures c.passed ==> c.message == "v" + cmd.stdout
    ensures !c.passed ==> c.message == (if cmd.stderr != "" then cmd.stderr else "npm not found")
  {
    if cmd.returnCode != 0 then
      CheckResult("npm", false, if cmd.stderr != "" then cmd.stderr else "npm not found",
                  "npm ships with Node.js \U{2014} reinstall Node or run `npm install -g npm`")
    else CheckResult("npm", true, "v" + cmd.stdout, "")
  }

  /** `check_port`: the port fails only when something accepts a connection on it. */
  function CheckPort(port: int, probe: PortProbe): (c: CheckResult)
    ensures c.name == "Port " + IntToString(port)
    ensures c.passed <==> !probe.InUse?
    ensures probe.SocketError? ==> c.message == "Assumed available (" + probe.reason + ")"
  {
    var name := "Port " + IntToString(port);
    match probe
    case InUse =>
      CheckResult(name, false, name + " is already in use",
                  "Free the port: `lsof -ti:" + IntToString(port) + " | xargs kill` or change `gateway.port` in config.yaml")
    case Free => CheckResult(name, true, "Available", "")
    case SocketError(reason) => CheckResult(name, true, "Assumed available (" + reason + ")", "")
  }

  /** The base URL without trailing slashes. */
  function ServerUrl(model: ModelConfig): (url: string)
    ensures url == [] || url[|url| - 1] != '/'
  {
    RStrip(model.baseUrl, Only('/'))
  }

  /** `check_model_server`: the `/models` endpoint, then the base URL itself, must answer. */
  function CheckModelServer(model: ModelConfig, respondsOk: string -> bool): (c: CheckResult)
    ensures c.name == "Server [" + model.name + "]"
    ensures c.passed <==> respondsOk(ServerUrl(model) + "/models") || respondsOk(ServerUrl(model))
    ensures respondsOk(ServerUrl(model) + "/models") ==> c.message == "Reachable at " + ServerUrl(model) + "/models"
    ensures !c.passed ==> c.message == "Cannot reach " + ServerUrl(model)
  {
    var url := ServerUrl(model);
    var name := "Server [" + model.name + "]";
    if respondsOk(url + "/models") then CheckResult(name, true, "Reachable at " + url + "/models", "")
    else if respondsOk(url) then CheckResult(name, true, "Reachable at " + url, "")
    else CheckResult(name, false, "Cannot reach " + url,
                     "Start your model server (e.g. `ollama serve`) and ensure it listens on " + url)
  }

  /** The name an Ollama listing entry is known by: a non-empty `model` field, else `name`. */
  function OllamaName(e: Entry): string
    requires e.Object?
  {
    if e.model.Some? && e.model.value != "" then e.model.value else e.name.GetOr("")
  }

  /** The ids of the first `n` entries of an OpenAI-style `data` listing. */
  function DataIds(entries: seq<Entry>, n: nat): set<string>
    requires n <= |entries|
  {
    set i | 0 <= i < n && entries[i].Object? && entries[i].id.Some? :: entries[i].id.value
  }

  /** The names of the first `n` entries of an Ollama `models` listing, and their untagged forms. */
  function OllamaIds(entries: seq<Entry>, n: nat): set<string>
    requires n <= |entries|
  {
    OllamaNames(entries, n) + OllamaUntagged(entries, n)
  }

  function OllamaNames(entries: seq<Entry>, n: nat): set<string>
    requires n <= |entries|
  {
    set i | 0 <= i < n && entries[i].Object? :: OllamaName(entries[i])
  }

  function OllamaUntagged(entries: seq<Entry>, n: nat): set<string>
    requires n <= |entries|
  {
    set i | 0 <= i < n && entries[i].Object? && ':' in OllamaName(entries[i]) :: BeforeFirst(OllamaName(entries[i]), ':')
  }

  /** The ids a listing offers: `data` takes precedence over `models`. */
  function ListedIds(body: Listing): set<string> {
    match body
    case JsonObject(Some(data), _) => DataIds(data, |data|)
    case JsonObject(None, Some(models)) => OllamaIds(models, |models|)
    case _ => {}
  }

  /** The loop that gathers the listed ids one entry at a time. */
  method CollectIds(body: Listing) returns (ids: set<string>)
    ensures ids == ListedIds(body)
  {
    ids := {};
    match body
    case JsonObject(Some(data), _) =>
      for i := 0 to |data|
        invariant ids == DataIds(data, i)
      {
        var e := data[i];
        if e.Object? && e.id.Some? {
          ids := ids + {e.id.value};
        }
        assert DataIds(data, i + 1) == DataIds(data, i) + (if e.Object? && e.id.Some? then {e.id.value} else {});
      }
    case JsonObject(None, Some(models)) =>
      for i := 0 to |models|
        invariant ids == OllamaIds(models, i)
      {
        var e := models[i];
        if e.Object? {
          var name := OllamaName(e);
          ids := ids + {name};
          if ':' in name {
            ids := ids + {BeforeFirst(name, ':')};
          }
        }
        OllamaIdsStep(models, i);
      }
    case _ =>
  }

  lemma OllamaIdsStep(entries: seq<Entry>, i: nat)
    requires i < |entries|
    ensures OllamaIds(entries, i + 1) == OllamaIds(entries, i)
      + (if entries[i].Object? then {OllamaName(entries[i])} else {})
      + (if entries[i].Object? && ':' in OllamaName(entries[i]) then {BeforeFirst(OllamaName(entries[i]), ':')} else {})
  {
    OllamaNamesStep(entries, i);
    OllamaUntaggedStep(entries, i);
  }

  lemma OllamaNamesStep(entries: seq<Entry>, i: nat)
    requires i < |entries|
    ensures OllamaNames(entries, i + 1) == OllamaNames(entries, i) + (if entries[i].Object? then {OllamaName(entries[i])} else {})
  {
    hide OllamaName;
    assert OllamaNames(entries, i + 1) == OllamaNames(entries, i) + (if entries[i].Object? then {OllamaName(entries[i])} else {});
  }

  lemma OllamaUntaggedStep(entries: seq<Entry>, i: nat)
    requires i < |entries|
    ensures OllamaUntagged(entries, i + 1) == OllamaUntagged(entries, i)
      + (if entries[i].Object? && ':' in OllamaName(entries[i]) then {BeforeFirst(OllamaName(entries[i]), ':')} else {})
  {
    hide OllamaName, BeforeFirst;
    assert OllamaUntagged(entries, i + 1) == OllamaUntagged(entries, i)
      + (if entries[i].Object? && ':' in OllamaName(entries[i]) then {BeforeFirst(OllamaName(entries[i]), ':')} else {});
  }

  /** The model id matches exactly, by its untagged form, or with the `:latest` tag added. */
  predicate Found(wanted: string, ids: set<string>) {
    wanted in ids || (':' in wanted && BeforeFirst(wanted, ':') in ids) || wanted + ":latest" in ids
  }

  /** The URL the model listing is fetched from. */
  function ListingUrl(model: ModelConfig): string {
    ServerUrl(model) + "/models"
  }

  /** `check_model_available` on the fetched listing. */
  function AvailabilityCheck(model: ModelConfig, body: Listing): (c: CheckResult)
    ensures c.name == "Model [" + model.name + "]"
    ensures body.Unreadable? ==> !c.passed && c.message == "Could not list models from " + ListingUrl(model)
    ensures !body.Unreadable? ==> (c.passed <==> Found(model.modelId, ListedIds(body)))
  {
    var name := "Model [" + model.name + "]";
    var wanted := model.modelId;
    if body.Unreadable? then
      CheckResult(name, false, "Could not list models from " + ListingUrl(model),
                  "Ensure server is running at " + model.baseUrl)
    else if Found(wanted, ListedIds(body)) then
      CheckResult(name, true, "'" + wanted + "' available", "")
    else
      CheckResult(name, false, "'" + wanted + "' not found on server",
                  "Pull the model first: e.g. `ollama pull " + wanted + "`")
  }

  /** The check as the source runs it: the ids are gathered by the loop. */
  method CheckModelAvailable(model: ModelConfig, body: Listing) returns (c: CheckResult)
    ensures c == AvailabilityCheck(model, body)
  {
    var name := "Model [" + model.name + "]";
    var wanted := model.modelId;
    if body.Unreadable? {
      return CheckResult(name, false, "Could not list models from " + ListingUrl(model),
                         "Ensure server is running at " + model.baseUrl);
    }
    var ids := CollectIds(body);
    var found := wanted in ids;
    if !found && ':' in wanted {
      found := BeforeFirst(wanted, ':') in ids;
    }
    if !found {
      found := wanted + ":latest" in ids;
    }
    if found {
      c := CheckResult(name, true, "'" + wanted + "' available", "");
    } else {
      c := CheckResult(name, false, "'" + wanted + "' not found on server",
                       "Pull the model first: e.g. `ollama pull " + wanted + "`");
    }
  }

  /** A tagged Ollama name also lists its untagged form, so the bare id is found. */
  lemma OllamaTagFindsBareId(model: ModelConfig, entries: seq<Entry>, i: nat)
    requires i < |entries| && entries[i].Object? && ':' in OllamaName(entries[i])
    requires model.modelId == BeforeFirst(OllamaName(entries[i]), ':')
    ensures AvailabilityCheck(model, JsonObject(None, Some(entries))).passed
  {
    assert model.modelId in OllamaIds(entries, |entries|);
  }

  /** A tagged id is found when the server lists the untagged name. */
  lemma TaggedIdFindsBareListing(model: ModelConfig, body: Listing)
    requires !body.Unreadable? && ':' in model.modelId
    requires BeforeFirst(model.modelId, ':') in ListedIds(body)
    ensures AvailabilityCheck(model, body).passed
  {
  }

  /** A bare id is found when the server lists it with the `:latest` tag. */
  lemma BareIdFindsLatest(model: ModelConfig, data: seq<Entry>, i: nat)
    requires i < |data| && data[i] == Object(Some(model.modelId + ":latest"), None, None)
    ensures AvailabilityCheck(model, JsonObject(Some(data), None)).passed
  {
    assert data[i].id.value in DataIds(data, |data|);
  }

  /** With a `data` listing present, the Ollama `models` listing is not consulted. */
  lemma DataTakesPrecedence(model: ModelConfig, data: seq<Entry>, models: seq<Entry>)
    ensures AvailabilityCheck(model, JsonObject(Some(data), Some(models)))
         == AvailabilityCheck(model, JsonObject(Some(data), None))
  {
  }

  /** The base URLs of the first `n` models. */
  function UrlsUpTo(models: seq<ModelConfig>, n: nat): set<string>
    requires n <= |models|
  {
    set i | 0 <= i < n :: models[i].baseUrl
  }

  /** The per-model checks for the first `n` models: a server check on a URL's first use, then availability. */
  function ModelChecks(models: seq<ModelConfig>, n: nat, p: Probes): seq<CheckResult>
    requires n <= |models|
  {
    if n == 0 then []
    else
      ModelChecks(models, n - 1, p) + ModelStep(models[n - 1], UrlsUpTo(models, n - 1), p)
  }

  /** The checks one model adds, given the base URLs already seen. */
  function ModelStep(m: ModelConfig, seen: set<string>, p: Probes): seq<CheckResult> {
    (if m.baseUrl !in seen then [CheckModelServer(m, p.respondsOk)] else [])
    + [AvailabilityCheck(m, p.listing(ListingUrl(m)))]
  }

  /** The system checks, skipped when installation is skipped. */
  function SystemChecks(skipInstall: bool, p: Probes): seq<CheckResult> {
    if skipInstall then [] else [CheckNode(p.node), CheckNpm(p.npm)]
  }

  /** Every check `run_preflight` produces, in order. */
  function PreflightChecks(cfg: BenchmarkConfig, skipInstall: bool, p: Probes): seq<CheckResult> {
    SystemChecks(skipInstall, p) + [CheckPort(cfg.gatewayPort, p.port)] + ModelChecks(cfg.models, |cfg.models|, p)
  }

  /** `run_preflight`: the checks appended to a fresh report, servers deduplicated by base URL. */
  method RunPreflight(cfg: BenchmarkConfig, skipInstall: bool, p: Probes) returns (report: PreflightReport)
    ensures fresh(report)
    ensures report.checks == PreflightChecks(cfg, skipInstall, p)
  {
    hide CheckNode, CheckNpm, CheckPort, ModelChecks;
    report := new PreflightReport();
    if !skipInstall {
      report.Add(CheckNode(p.node));
      report.Add(CheckNpm(p.npm));
    }
    report.Add(CheckPort(cfg.gatewayPort, p.port));
    AddModelChecks(report, cfg.models, p);
  }

  /** The per-model part of `run_preflight`: the loop over the models with its set of seen URLs. */
  method AddModelChecks(report: PreflightReport, models: seq<ModelConfig>, p: Probes)
    modifies report
    ensures report.checks == old(report.checks) + ModelChecks(models, |models|, p)
  {
    ModelChecksStart(models, p);
    hide *;
    var seen: set<string> := {};
    for i := 0 to |models|
      invariant report.checks == old(report.checks) + ModelChecks(models, i, p)
      invariant seen == UrlsUpTo(models, i)
    {
      ModelChecksAppend(models, i, seen, p);
      ghost var step := ModelStep(models[i], seen, p);
      seen := AddOneModel(report, models[i], seen, p);
      assert report.checks == old(report.checks) + (ModelChecks(models, i, p) + step);
    }
  }

  lemma ModelChecksStart(models: seq<ModelConfig>, p: Probes)
    ensures ModelChecks(models, 0, p) == [] && UrlsUpTo(models, 0) == {}
  {
  }

  /** One more model adds its step's checks, judged against the URLs seen so far, and its URL. */
  lemma ModelChecksAppend(models: seq<ModelConfig>, i: nat, seen: set<string>, p: Probes)
    requires i < |models| && seen == UrlsUpTo(models, i)
    ensures ModelChecks(models, i + 1, p) == ModelChecks(models, i, p) + ModelStep(models[i], seen, p)
    ensures UrlsUpTo(models, i + 1) == seen + {models[i].baseUrl}
  {
    UrlsStep(models, i);
  }

  /** One step of the model loop: a server check on the URL's first use, then the availability check. */
  method AddOneModel(report: PreflightReport, model: ModelConfig, seen: set<string>, p: Probes)
    returns (seen': set<string>)
    modifies report
    ensures seen' == seen + {model.baseUrl}
    ensures report.checks == old(report.checks) + ModelStep(model, seen, p)
  {
    hide CheckModelServer, AvailabilityCheck;
    seen' := seen;
    if model.baseUrl !in seen {
      report.Add(CheckModelServer(model, p.respondsOk));
      seen' := seen + {model.baseUrl};
    }
    var available := CheckModelAvailable(model, p.listing(ListingUrl(model)));
    report.Add(available);
  }

  lemma ModelChecksStep(models: seq<ModelConfig>, i: nat, p: Probes)
    requires i < |models|
    ensures ModelChecks(models, i + 1, p) == ModelChecks(models, i, p)
      + (if models[i].baseUrl !in UrlsUpTo(models, i) then [CheckModelServer(models[i], p.respondsOk)] else [])
      + [AvailabilityCheck(models[i], p.listing(ListingUrl(models[i])))]
  {
  }

  lemma UrlsStep(models: seq<ModelConfig>, i: nat)
    requires i < |models|
    ensures UrlsUpTo(models, i + 1) == UrlsUpTo(models, i) + {models[i].baseUrl}
  {
  }

  /** One availability check per model and one server check per distinct base URL. */
  lemma {:induction false} ModelChecksCount(models: seq<ModelConfig>, n: nat, p: Probes)
    requires n <= |models|
    ensures |ModelChecks(models, n, p)| == n + |UrlsUpTo(models, n)|
    decreases n
  {
    hide CheckModelServer, AvailabilityCheck, ModelStep, UrlsUpTo;
    if n > 0 {
      var seen := UrlsUpTo(models, n - 1);
      var url := models[n - 1].baseUrl;
      assert ModelChecks(models, n, p) == ModelChecks(models, n - 1, p) + ModelStep(models[n - 1], seen, p);
      hide ModelChecks;
      ModelStepLength(models[n - 1], seen, p);
      ModelChecksCount(models, n - 1, p);
      UrlsStep(models, n - 1);
      if url in seen {
        assert seen + {url} == seen;
      } else {
        assert |seen + {url}| == |seen| + 1;
      }
    } else {
      ModelChecksStart(models, p);
    }
  }

  lemma ModelStepLength(m: ModelConfig, seen: set<string>, p: Probes)
    ensures |ModelStep(m, seen, p)| == if m.baseUrl in seen then 1 else 2
  {
  }

  /**
    The check list: node and npm exactly when installation is not skipped, then the single
    port check, then one server check per distinct base URL and one availability check per model.
  */
  lemma PreflightShape(cfg: BenchmarkConfig, skipInstall: bool, p: Probes)
    ensures var checks := PreflightChecks(cfg, skipInstall, p);
      var k := if skipInstall then 0 else 2;
      && |checks| == k + 1 + |cfg.models| + |UrlsUpTo(cfg.models, |cfg.models|)|
      && checks[k] == CheckPort(cfg.gatewayPort, p.port)
      && (!skipInstall ==> checks[0] == CheckNode(p.node) && checks[1] == CheckNpm(p.npm))
  {
    hide CheckNode, CheckNpm, CheckPort, CheckModelServer, AvailabilityCheck, ModelChecks, UrlsUpTo;
    var k := if skipInstall then 0 else 2;
    var sys := SystemChecks(skipInstall, p);
    assert |sys| == k && (!skipInstall ==> sys == [CheckNode(p.node), CheckNpm(p.npm)]);
    assert PreflightChecks(cfg, skipInstall, p) == sys + [CheckPort(cfg.gatewayPort, p.port)] + ModelChecks(cfg.models, |cfg.models|, p);
    hide *;
    ModelChecksCount(cfg.models, |cfg.models|, p);
  }
}
