# OpenClaw Bootstrapping Benchmark — a verified Dafny model

The OpenClaw Bootstrapping Benchmark measures how well a language model completes OpenClaw's
first-run "bootstrap" ritual. For each configured model and prompt variant, the benchmark:

- installs OpenClaw into an isolated home directory;
- onboards it non-interactively and starts its gateway;
- plays a fixed list of prompts to the agent;
- inspects the workspace files the agent should have written: `BOOTSTRAP.md` deleted, and
  `IDENTITY.md`, `USER.md` and `SOUL.md` filled in.

Each run is scored, repeated runs are averaged, and the averages go into a JSON report and a
markdown table spliced into the project README.

This project models the decision logic of that pipeline in Dafny and proves what it promises.
Processes, HTTP, sockets, files and clocks are not modelled: their outcomes enter as parameters.

| file | models |
|---|---|
| `common.dfy` | `Option` / `Result` wrappers and `dict.get` with a default |
| `text.dfy` | the Python string operations the code relies on: `strip`/`lstrip`/`rstrip` with and without a character set, `splitlines`, `split()`, `replace`, `find`/`in`, `lower`, `int()`, `str(int)`, `join` |
| `verify.dfy` | `benchmark/verify.py`: the markdown field parser, placeholder detection, the four file checks and the verdict |
| `bootstrap.dfy` | `benchmark/bootstrap.py`: the turn loop with its global deadline, per-turn timeout and error tagging |
| `config.dfy` | `benchmark/config.py`: `$VAR` expansion, model and benchmark defaults, prompt-variant parsing, expected-field maps |
| `report.dfy` | `benchmark/report.py`: `aggregate_runs`, the table's variant column, rate cells and legend counts, and the README marker splice |
| `preflight.dfy` | `benchmark/preflight.py`: the report's views, the Node version gate, model-id matching and the check list of `run_preflight` |
| `environment.dfy` | `benchmark/environment.py`: API root, context-window discovery, clamping and config patching, provider id, safe names, `env()`, the onboard command and its redaction |
| `runner.dfy` | `benchmark/runner.py`: model filter, pre-flight gate, saved-report lookup, skip-completed decision, retry loop, per-variant aggregation, the single-model pipeline and the cleanup registry |

Loops of the source are methods with loop invariants, each proved equal to a specification
function. The properties are proved about those functions. Objects whose fields the source
updates are classes:

- the pre-flight report (`Preflight.PreflightReport`);
- the onboard configuration document (`Environment.ConfigDocument`);
- the benchmark environment (`Environment.OpenClawEnvironment`);
- the module-level cleanup registry (`Runner.Registry`).

Where the prose description of the system and the code differ, the model follows the code:

- A placeholder `name` in `IDENTITY.md` is reported as "Placeholder values: name", not as a missing field.
- The checks compare no expected values; they require only that each required key is present and not a placeholder.
- The deadline turn's error text is "Global bootstrap timeout exceeded".
- The per-turn timeout is `min(agent_turn_timeout, int(remaining))`, truncated to whole seconds.
- A reused skip-completed result is rebuilt from the saved entry. It carries no runs, and a missing per-check rate counts as 0.0.

## Model

| member | source | states |
|---|---|---|
| Verify.StripMdMarkersNormalises | benchmark/verify.py:76-78 | the result has no `*`, `_` or whitespace at either end, and stripping it again changes nothing |
| Verify.StripMdMarkersSkipsPrefix | benchmark/verify.py:76-78 | marker characters in front of a value do not change what it strips to |
| Verify.FieldMatch | benchmark/verify.py:94 | a match starts with `-` or `*`; group 1 starts with a word character and holds only word and space characters; group 2 starts at a non-space |
| Verify.KeyEnd | benchmark/verify.py:94 | the lazy key group ends at a position where `\*{0,2}\s*:` matches, reached over key characters only |
| Verify.KeyEndIsFirst | benchmark/verify.py:94 | the lazy key group ends at the first such position, and there is none exactly when every matching position lies past a non-key character |
| Verify.StarsEnd | benchmark/verify.py:94 | `\*{0,2}` consumes at most two stars, greedily |
| Verify.KeyOf | benchmark/verify.py:96 | a key is non-empty, starts with a word character and does not end in whitespace |
| Verify.LineEntry | benchmark/verify.py:92-107 | each entry a line contributes has a normalised key |
| Verify.ParseMdFields | benchmark/verify.py:81-110 | the loop builds exactly the field map of the specification |
| Verify.FieldsKeys | benchmark/verify.py:95-109 | a key is in the map iff some line's entry names it |
| Verify.LastWriterWins | benchmark/verify.py:109 | the last line naming a key decides its value |
| Verify.MdFieldsKeysShaped | benchmark/verify.py:96 | every parsed key is trimmed, non-empty, starts with a word character and is its own lower case |
| Verify.BoldFieldLine | benchmark/verify.py:94 | `- **Key:**rest` matches with group 1 `Key` and group 2 `**rest` |
| Verify.BoldFieldMatch | benchmark/verify.py:94 | any line of that shape matches at the same positions |
| Verify.KeyEndInsideKey | benchmark/verify.py:94 | inside a bold key the lazy group first ends at the colon |
| Verify.KeyWindowShape | benchmark/verify.py:96 | the trimmed, lower-cased group keeps a word character first |
| Verify.BoldKeyLine | benchmark/verify.py:92-96 | `- **Key:**` is unchanged by `strip`, matches, and yields the key `key` |
| Verify.BoldLineUnstripped | benchmark/verify.py:92 | a line beginning with `-` and ending with `*` is unchanged by `strip` |
| Verify.BoldKeyTrimmed | benchmark/verify.py:96 | a template key trims and lower-cases to `Lower(Key)` |
| Verify.BoldValueEmpty | benchmark/verify.py:97-99 | nothing but the closing `**` follows the colon, so the line's own value is empty |
| Verify.CleanWindow | benchmark/verify.py:97-99 | the cleaned value is a sub-window of the raw value |
| Verify.CleanWindowSlice | benchmark/verify.py:97-99 | that window holds exactly marker-, parenthesis- and space-stripped text |
| Verify.ContinuationValue | benchmark/verify.py:103-107 | the next line's stripping window is non-empty and no `^[-*]\s` bullet exactly when the stripped line is, and its cleaning window holds that line cleaned |
| Verify.ValueOfRule | benchmark/verify.py:97-107 | for any line of any document, the window computation of a value equals the value rule `ContinuedValue`: the own cleaned value, else the cleaned stripped next line, else "" when the next line is missing, blank or a bullet |
| Verify.MatchedLineEntry | benchmark/verify.py:92-109 | any line, indented or not, whose stripped form matches yields its normalised key and the value the value rule gives for its group 2 and the next line |
| Verify.BoldKeyEntry | benchmark/verify.py:101-109 | `- **Key:**` followed by any non-blank line that is not a `^[-*]\s` bullet yields `key` mapped to that line cleaned, in a document of any length |
| Verify.BoldKeyWithoutContinuation | benchmark/verify.py:101-109 | `- **Key:**` as the last line, or before a blank line or a bullet, yields `key` with an empty value |
| Verify.PlainLineEntry | benchmark/verify.py:92-95 | a line whose stripped form starts with neither `-` nor `*` contributes nothing |
| Verify.ContinuationLine | benchmark/verify.py:81-110 | the two-line document `- **Key:**` / value parses to exactly one field |
| Verify.TemplateValueStrips | benchmark/verify.py:104 | the template's `  _(phrase)_` line strips to `_(phrase)_` |
| Verify.TemplateValueCleans | benchmark/verify.py:106-107 | `_(phrase)_` cleans to the phrase |
| Verify.TemplateField | benchmark/verify.py:81-110 | a template key and its `_(phrase)_` continuation give the phrase as the value |
| Verify.TemplateNameIsPlaceholder | benchmark/verify.py:103-120 | the untouched IDENTITY.md name line parses to "pick something you like", which is a placeholder |
| Verify.PlaceholderIgnoresMarkers | benchmark/verify.py:113-120 | surrounding markers never change whether a value is a placeholder |
| Verify.MarkersOnlyIsPlaceholder | benchmark/verify.py:113-117 | a value of markers and whitespace only is a placeholder |
| Verify.IdentityPhraseIsPlaceholder | benchmark/verify.py:113-120 | each identity template phrase is a placeholder as written |
| Verify.BootstrapDeletedCheck | benchmark/verify.py:125-141 | passes iff BOOTSTRAP.md is absent, with the two detail texts and the content read |
| Verify.MissingMembers | benchmark/verify.py:159-162 | a required key is listed as missing iff its value is empty |
| Verify.PlaceholdersMembers | benchmark/verify.py:159-164 | a required key is listed as a placeholder iff its value is non-empty and a placeholder |
| Verify.FieldsCheck | benchmark/verify.py:144-151 | a missing file fails with "File missing" and no content |
| Verify.VerdictPasses | benchmark/verify.py:166-171 | the verdict passes iff every required key is filled in |
| Verify.VerdictDetails | benchmark/verify.py:166-172 | missing keys are reported before placeholder keys, and a pass carries the success wording |
| Verify.FieldsCheckPasses | benchmark/verify.py:144-174 | the shared check passes iff the file exists and every required key is filled in |
| Verify.IdentityPasses | benchmark/verify.py:144-174 | IDENTITY.md passes iff name, creature, vibe and emoji are all filled in |
| Verify.UserPasses | benchmark/verify.py:177-214 | USER.md passes iff timezone is filled in and so is name, or "what to call them" when name is absent |
| Verify.CheckIdentity | benchmark/verify.py:144-174 | the collecting loop gives the specified IDENTITY.md check |
| Verify.CheckUser | benchmark/verify.py:177-214 | the collecting loop with the alias gives the specified USER.md check |
| Verify.CheckFields | benchmark/verify.py:144-174 | the shared check procedure equals its specification |
| Verify.JudgeFields | benchmark/verify.py:157-172 | one pass collecting missing and placeholder keys gives the specified verdict |
| Verify.SoulCheck | benchmark/verify.py:217-244 | fails iff both template phrases occur and the stripped text is at most 200 characters; a pass reports the length |
| Verify.PassedCount | benchmark/verify.py:258 | passed count is at most the number of checks, and equal to it iff all pass |
| Verify.Summarise | benchmark/verify.py:258-266 | all-passed iff every check passes; score is passed/total in [0,1], 0 without checks, and 1 iff all passed |
| Verify.VerifyBootstrap | benchmark/verify.py:249-266 | the four checks in fixed order, summarised |
| Bootstrap.AgentResponse | benchmark/bootstrap.py:106-112 | a non-zero exit gives `[ERROR] ` plus the stripped stderr, otherwise the stripped stdout |
| Bootstrap.NonZeroExitTagged | benchmark/bootstrap.py:107-110 | a non-zero exit always produces an `[ERROR]`-tagged response |
| Bootstrap.TurnTimeout | benchmark/bootstrap.py:140 | the timeout is at most both `agent_turn_timeout` and the remaining time, and equals either `agent_turn_timeout` or the remaining time truncated to whole seconds |
| Bootstrap.PlayTurn | benchmark/bootstrap.py:142-154 | success iff an exit whose response lacks the tag; the error is the response, the timeout text, or the exception text |
| Bootstrap.NonZeroExitFails | benchmark/bootstrap.py:142-154 | a non-zero exit is a failed turn whose error is the tagged response |
| Bootstrap.PlayedTurn | benchmark/bootstrap.py:129-156 | each played turn carries its own prompt |
| Bootstrap.RunBootstrapConversation | benchmark/bootstrap.py:115-173 | the turn loop builds exactly the specified conversation result |
| Bootstrap.TurnsFollowPrompts | benchmark/bootstrap.py:129-156 | at most one turn per prompt, in prompt order |
| Bootstrap.AllPromptsPlayed | benchmark/bootstrap.py:129-161 | with time left before every prompt, every prompt is played, failures included, and there is no error |
| Bootstrap.DeadlineStops | benchmark/bootstrap.py:133-138 | when time runs out before prompt k, one deadline turn is recorded, the error is set and no later turn follows |
| Bootstrap.ErrorIffDeadline | benchmark/bootstrap.py:133-138 | the result carries an error iff the budget ran out before some prompt, and then it is the deadline text |
| Bootstrap.FirstDeadline | benchmark/bootstrap.py:133-138 | the first prompt before which the budget ran out |
| Bootstrap.CompletionIgnoresTurns | benchmark/bootstrap.py:164-166 | completion is BOOTSTRAP.md's absence after the loop, whatever the turns did |
| Config.IdentEnd | benchmark/config.py:34-35 | `[A-Za-z0-9_]*` is matched greedily |
| Config.CloseBrace | benchmark/config.py:34 | the lazy default `(.*?)` ends at the first `}` on the same line |
| Config.RefAt | benchmark/config.py:33-36 | a match starts at `$` and names a valid identifier |
| Config.ExpandFromNoDollar | benchmark/config.py:57 | text without `$` is copied unchanged |
| Config.ExpandNoDollar | benchmark/config.py:39-57 | a string with no `$` is left unchanged |
| Config.ExpandBraced | benchmark/config.py:47-53 | `${VAR}` becomes the value when set, else stays literally |
| Config.ExpandBracedDefault | benchmark/config.py:47-53 | `${VAR:-d}` becomes the value when set, else `d`, possibly empty |
| Config.ExpandBare | benchmark/config.py:55-56 | bare `$VAR` becomes the value when set, else stays |
| Config.KeyIndex | benchmark/config.py:84-94 | the first entry carrying a key |
| Config.Lookup | benchmark/config.py:84-94 | `d.get(key)`: absent iff no entry has the key |
| Config.ToInt | benchmark/config.py:93 | `int()` keeps an integer, reads a boolean as 0 or 1, truncates a float toward zero, parses a trimmed string (an error iff it is no integer literal), and fails on null, a list or a mapping |
| Config.StrOr | benchmark/config.py:87-92 | the default when absent, the string when the entry is one, and an error naming the key for any other value |
| Config.StrRequired | benchmark/config.py:86-90 | a missing required entry is a `KeyError`, a string entry is taken as written, and any other value is an error naming the key |
| Config.ModelFromDictFields | benchmark/config.py:84-94 | a missing `name` is the first error; an accepted model carries the required strings as written, the provider, auth choice and compatibility as written when present and the defaults "custom", "custom-api-key", "openai" and "" for absent keys, the window as `int()` reads it, and the API key with the environment expanded |
| Config.ModelFromDictAccepts | benchmark/config.py:84-94 | an entry with its required strings and well-typed optional keys is accepted |
| Config.ExpectedKeysAreRequired | benchmark/config.py:147-163 | the expected maps have exactly the keys name/creature/vibe/emoji and name/timezone |
| Config.InterpolateOne | benchmark/config.py:221-225 | a string prompt becomes its formatted text, stays as written on a `KeyError`, and any other formatting failure or a non-string prompt is an error |
| Config.InterpolatedPrompts | benchmark/config.py:218-226 | interpolation keeps every prompt, in order |
| Config.InterpolatePrompts | benchmark/config.py:218-226 | the appending loop equals its specification |
| Config.ErrorPersists | benchmark/config.py:218-226 | once interpolation fails, it fails with that message throughout |
| Config.VariantsFromEntries | benchmark/config.py:228-233 | parsing succeeds iff every list or string entry interpolates; the variants are exactly those entries, in order, each named by its key with its prompts interpolated (a string as a one-prompt list); other entries are skipped |
| Config.VariantsTakePrecedence | benchmark/config.py:228-233 | a non-empty `prompt_variants` mapping makes `bootstrap_prompts` irrelevant |
| Config.LegacyPrompts | benchmark/config.py:234-238 | without variants, a legacy list becomes the single variant "default" |
| Config.ParseVariants | benchmark/config.py:228-233 | the appending loop equals its specification |
| Config.VariantErrorPersists | benchmark/config.py:228-233 | an error in one variant persists to the end |
| Config.BootstrapPrompts | benchmark/config.py:189-193 | the first variant's prompts, or none |
| Config.IntOr | benchmark/config.py:242-247 | the default when absent, an integer as it is, a boolean as 0 or 1, and an error for any other value |
| Config.ModelsOf | benchmark/config.py:251 | a list gives its entries parsed, an empty mapping or empty string gives no models, and any other value fails |
| Config.ModelsUpTo | benchmark/config.py:251 | one parsed model per entry |
| Config.ModelsParsed | benchmark/config.py:251 | each model is its entry parsed, and parsing fails iff some entry fails |
| Config.ConfigFromDict | benchmark/config.py:196-253 | the defaults 120, 600, 1, 5, 18789, "loopback" and no models; variants as parsed; the models as iterating `models` gives them |
| Config.ConfigFromDictFields | benchmark/config.py:240-250 | every configured setting is taken from the mapping: timeouts and retries as integers, the run count as `int()` reads it, port and bind from the `gateway` mapping, `openclaw_home` as written |
| Report.CountWhere | benchmark/report.py:104-105 | a count is at most the length, equal to it iff all match, 0 iff none does |
| Report.SumBounded | benchmark/report.py:102 | a sum of values in [0,1] lies in [0,n] |
| Report.CheckRate | benchmark/report.py:88-94 | the counting loop gives passed checks with that filename divided by n |
| Report.AggregateRuns | benchmark/report.py:71-110 | the aggregate equals its specification |
| Report.NoRunsAllZero | benchmark/report.py:78-83 | zero runs give `num_runs` 0, every average and rate 0, and missing prompts become [] |
| Report.AggregateKeepsIdentity | benchmark/report.py:96-101 | model name, variant, prompts (missing as []) and `num_runs = n` are kept |
| Report.AverageScoreIsMean | benchmark/report.py:85-102 | `avg_score` is the mean of the run scores and lies in [0,1] |
| Report.RunRates | benchmark/report.py:104-105 | perfect and bootstrap rates lie in [0,1], equal 1 iff every run qualifies and 0 iff none does |
| Verify.FractionOne | benchmark/verify.py:258-266 | k/n is in [0,1], 1 iff k = n, 0 iff k = 0 |
| Report.PassedForNone | benchmark/report.py:91-93 | a run without the file's check contributes no pass |
| Report.PassedForAtMostOne | benchmark/report.py:91-93 | with one check per filename a run contributes at most one pass |
| Report.PassedOverBounded | benchmark/report.py:88-94 | then the passes over all runs are at most n |
| Report.CheckRatesBounded | benchmark/report.py:106-109 | then every per-check rate lies in [0,1] |
| Report.VerdictOneCheckPerFile | benchmark/verify.py:251-256 | the verdict holds exactly one check per filename |
| Report.HasVariantsIff | benchmark/report.py:306-307 | the variant column is shown iff some result's variant is not "default" |
| Report.RateMark | benchmark/report.py:334-339 | a rate cell is a tick iff the rate is 1, a cross iff it is 0, else the percentage |
| Report.PerfectTickIff | benchmark/report.py:334-350 | the Perfect cell is a tick iff every run passed all checks |
| Report.RunsNote | benchmark/report.py:298-303 | "N runs per model" when every result has N runs, else "variable runs per model" |
| Report.RunCountsShape | benchmark/report.py:298-301 | the set of run counts has one element iff all counts agree |
| Report.PerfectModels | benchmark/report.py:371-372 | the perfect-model count equals the total iff every model is perfect |
| Report.SpliceNoStart | benchmark/report.py:446-453 | without a start marker the text is unchanged |
| Report.SpliceUnclosed | benchmark/report.py:446-453 | a start marker with no end marker after it changes nothing |
| Report.SpliceBlock | benchmark/report.py:446-453 | the first start…end span, markers included, becomes the replacement and the rest is spliced in turn |
| Report.UpdateReadme | benchmark/report.py:416-457 | no file or a missing marker gives `False` and no write; otherwise `True` and every span replaced by start + "\n" + table + "\n" + end |
| Report.UpdateSingleBlock | benchmark/report.py:443-455 | with one marked block, only that block changes and the text around it is kept |
| Report.SuffixAbsent | benchmark/report.py:446-453 | a marker absent from a suffix onwards is absent from that suffix |
| Preflight.FailedOf | benchmark/preflight.py:54-56 | `failed` holds exactly the failing checks, none other, and is empty iff every check passed |
| Preflight.FailedOfAppend | benchmark/preflight.py:54-56 | `failed` keeps check order |
| Preflight.PreflightReport.constructor | benchmark/preflight.py:46-48 | a new report has no checks |
| Preflight.PreflightReport.AllPassed | benchmark/preflight.py:50-52 | `all_passed` iff `failed` is empty |
| Preflight.PreflightReport.Add | benchmark/preflight.py:270-281 | a check is appended and nothing else changes |
| Preflight.NodeMajor | benchmark/preflight.py:95-104 | `v?(\d+)` matches iff a digit follows the optional `v` |
| Preflight.CheckNode | benchmark/preflight.py:83-117 | passes iff the command succeeded, the version parsed and its major is at least 22; the message for a failed command, an unparsed version, a version below 22 and a pass |
| Preflight.NodeVersionGate | benchmark/preflight.py:95-117 | `vN…` passes iff N is at least 22 |
| Preflight.NodeVersionGateBare | benchmark/preflight.py:95-117 | `N…` without `v` passes iff N is at least 22 |
| Preflight.CheckNpm | benchmark/preflight.py:120-130 | passes iff the command succeeded, with the version or the error as message |
| Preflight.CheckPort | benchmark/preflight.py:133-162 | passes iff the port is not in use; a socket error assumes it free |
| Preflight.ServerUrl | benchmark/preflight.py:168 | the server URL, the base URL without trailing slashes, never ends in `/` |
| Preflight.CheckModelServer | benchmark/preflight.py:165-195 | passes iff `/models` or the base URL answers, `/models` tried first |
| Preflight.CollectIds | benchmark/preflight.py:219-232 | the collecting loops give exactly the listed id set |
| Preflight.OllamaIdsStep | benchmark/preflight.py:225-232 | a non-object entry adds no id |
| Preflight.AvailabilityCheck | benchmark/preflight.py:198-259 | an unreadable listing fails; otherwise passes iff the id, its untagged prefix or id + ":latest" is listed |
| Preflight.CheckModelAvailable | benchmark/preflight.py:198-259 | the procedure equals its specification |
| Preflight.OllamaTagFindsBareId | benchmark/preflight.py:228-236 | an Ollama `name:tag` also lists `name`, so the bare id is found |
| Preflight.TaggedIdFindsBareListing | benchmark/preflight.py:237-238 | a tagged id is found when its untagged prefix is listed |
| Preflight.BareIdFindsLatest | benchmark/preflight.py:240-241 | a bare id is found when id + ":latest" is listed |
| Preflight.DataTakesPrecedence | benchmark/preflight.py:220-225 | when `data` is present the `models` entries are not consulted |
| Preflight.RunPreflight | benchmark/preflight.py:264-283 | a fresh report whose checks are exactly the specified list |
| Preflight.AddModelChecks | benchmark/preflight.py:276-281 | the model loop appends one server check per new base URL and one availability check per model |
| Preflight.ModelChecksStep | benchmark/preflight.py:277-281 | one loop step's appended checks |
| Preflight.UrlsStep | benchmark/preflight.py:278-280 | one loop step's seen-URL set |
| Preflight.ModelChecksCount | benchmark/preflight.py:276-281 | one check per model plus one per distinct base URL |
| Preflight.PreflightShape | benchmark/preflight.py:264-283 | node and npm come first only without skip-install, then exactly one port check, then the model checks |
| Environment.ApiRootSplits | benchmark/environment.py:42-45 | the root is a prefix of the base URL followed by slashes only (the root then ending neither in `/` nor in `/v1`) or by one `/v1` and slashes only |
| Environment.ApiRootOfVersioned | benchmark/environment.py:42-45 | `host/v1/` gives `host` |
| Environment.ApiRootPlain | benchmark/environment.py:42-45 | a URL without `/v1` or trailing slash is kept |
| Environment.NumCtxOf | benchmark/environment.py:72-81 | a line gives a value iff it is exactly `num_ctx <n>` with n a positive integer, and the value is that n |
| Environment.QueryContextWindow | benchmark/environment.py:54-83 | the two scanning loops give exactly the specified discovered window, none without an answer |
| Environment.DiscoveredWindowOrder | benchmark/environment.py:63-83 | the first `.context_length` entry of `model_info` wins; without one, the first positive `num_ctx` line; without either, nothing |
| Environment.Clamp | benchmark/environment.py:358-360 | the clamped value lies in [16000, 128000] and equals the input inside it |
| Environment.ResolveContextWindow | benchmark/environment.py:347-360 | the window lies in [16000, 128000]; discovery is used only for the default window on localhost with at least 16000 |
| Environment.RemoteKeepsDefault | benchmark/environment.py:351 | a non-localhost model keeps the default 128000 |
| Environment.ExplicitWindowWins | benchmark/environment.py:348-351 | an explicitly configured window in range is used as is |
| Environment.PatchEntry | benchmark/environment.py:369-373 | only the model's entries change: window set and `maxTokens` at least 8192 |
| Environment.PatchIdempotent | benchmark/environment.py:362-374 | patching twice equals patching once |
| Environment.EntryIdempotent | benchmark/environment.py:369-373 | patching an entry twice equals patching it once |
| Environment.ConfigDocument.constructor | benchmark/environment.py:340-342 | the document holds the providers read |
| Environment.ConfigDocument.PatchModels | benchmark/environment.py:362-374 | every provider is patched and `patched` is true iff some entry matched |
| Environment.PatchConfigContextWindow | benchmark/environment.py:320-384 | no file means no write; otherwise the resolved window is patched in and written iff some entry matched |
| Environment.PatchedEntriesFloor | benchmark/environment.py:372-373 | every matching entry ends with the window and at least 8192 `maxTokens` |
| Environment.ProviderId | benchmark/environment.py:299-302 | none iff the reference has no `/`; otherwise the text before the first `/` |
| Environment.BeforeFirstPrefix | benchmark/environment.py:300 | the part before the separator is a prefix |
| Environment.ProviderOfReference | benchmark/environment.py:299-300 | `provider/model` gives `provider` |
| Environment.SafeName | benchmark/environment.py:146 | `:` and `/` become `_`, nothing else changes |
| Environment.OpenClawEnvironment.constructor | benchmark/environment.py:132-166 | a new environment with no token and no provider id |
| Environment.OpenClawEnvironment.Env | benchmark/environment.py:171-192 | sets home, config path, `PATH` prefix, `NO_COLOR` and `CI`; the key and token only when non-empty, an inherited key or token otherwise kept unchanged; other variables inherited |
| Environment.OpenClawEnvironment.WriteConfig | benchmark/environment.py:241-269 | the generated token is stored and the provider id is untouched |
| Environment.OpenClawEnvironment.ReadBackConfig | benchmark/environment.py:271-318 | provider id from the model reference; a non-empty written token is adopted; no file changes nothing |
| Environment.OpenClawEnvironment.OnboardCommand | benchmark/environment.py:394-414 | the command starts `openclaw onboard`, passes a non-empty token, and passes a non-empty API key last after `--custom-api-key` |
| Environment.RedactedHidesSecrets | benchmark/environment.py:416-421 | neither secret occurs in the logged command |
| Runner.AcceptedIsFirstSuccess | benchmark/runner.py:359-396 | the kept run is the first attempt without an infrastructure failure, or the last attempt when all failed |
| Runner.RunWithRetries | benchmark/runner.py:355-396 | the kept run is the one the retry rule picks from attempts 1 to `retries + 1`, and there is no result when `retries` is negative |
| Runner.VariantRuns | benchmark/runner.py:351-398 | exactly one kept run per run index |
| Runner.RunRuns | benchmark/runner.py:351-398 | the run loop appends exactly one result per run index |
| Runner.NRuns | benchmark/runner.py:251 | every variant runs at least once, `runs_per_model` times when positive |
| Runner.VariantsToRun | benchmark/runner.py:299 | the configured variants, or the single variant "default" |
| Runner.FilterModels | benchmark/runner.py:214-216 | a model is kept iff it is configured and its name is requested |
| Runner.FilterAppend | benchmark/runner.py:216 | filtering keeps configuration order |
| Runner.LaterEntryWins | benchmark/runner.py:263-265 | the lookup holds exactly the entries' keys, each bound to the last entry with that key |
| Runner.BuildPriorLookup | benchmark/runner.py:257-265 | the lookup loop equals its specification |
| Runner.VersionChanged | benchmark/runner.py:338-341 | the version reason differs from the prompt reason |
| Runner.DecideSkip | benchmark/runner.py:301-347 | reuse iff an entry exists and both version and prompts match; otherwise the reasons name each mismatch, the version change first and the prompt change last |
| Runner.ReusedCarriesPrior | benchmark/runner.py:305-331 | a skipped variant carries the saved entry, taken with the same version and prompts |
| Runner.RunVariantMeaning | benchmark/runner.py:349-407 | a run variant aggregates `n_runs` kept runs, each chosen by the retry rule |
| Runner.ModelResults | benchmark/runner.py:299 | one aggregate per variant |
| Runner.AllResultsShape | benchmark/runner.py:290-407 | one aggregate per model and variant, model-major |
| Runner.RunVariant | benchmark/runner.py:301-407 | one variant is carried over or run and aggregated; a missing result is the failed `assert` |
| Runner.RunModel | benchmark/runner.py:299-407 | the variant loop equals its specification |
| Runner.RunAll | benchmark/runner.py:290-407 | the model loop equals its specification |
| Runner.RunBenchmark | benchmark/runner.py:200-407 | the guards, pre-flight, lookup and loops give the specified outcome |
| Runner.BenchmarkOutcomes | benchmark/runner.py:209-397 | exit 1 iff no model is left after filtering; exit 2 iff some pre-flight check fails; a failed `assert` needs negative retries; otherwise the benchmark finishes |
| Runner.FinishedShape | benchmark/runner.py:290-407 | a finished benchmark holds one aggregate per selected model and variant |
| Runner.OnboardingFailureRetried | benchmark/runner.py:135-141 | a failed onboarding records "Onboarding failed" with a zero score and is an infrastructure failure |
| Runner.StoppedPipelineRetriedIffMessage | benchmark/runner.py:135-170 | a pipeline stopped early has no turns and an empty verdict, and is retried iff its error text is non-empty |
| Runner.CompletedPipelineKeepsVerdict | benchmark/runner.py:157-163 | a completed pipeline returns the conversation and verdict unchanged |
| Runner.Registry.constructor | benchmark/runner.py:54-57 | the registry starts empty, with the version "unknown" |
| Runner.Registry.EmergencyCleanup | benchmark/runner.py:60-74 | the gateway slot ends empty, the environment slot ends empty unless kept, and a signal exits with 128 + signum |
| Runner.Registry.RunSingleModel | benchmark/runner.py:95-180 | the failure results of each step; the gateway is stopped iff started; both slots are cleared; the version is updated after install |

## Left out

- Processes, HTTP, sockets, files, clocks and randomness are left out. Their outcomes are parameters: `Probes`, `Trial`, `SingleModelSteps`, `Step`, `Workspace`, listings and show responses. This covers npm install, `openclaw` commands, gateway start and stop, `wait_for_gateway`, warm-up, urlopen, `connect_ex`, mkdtemp, chmod, rmtree, JSON load and dump, `time.time`, sleep and `secrets.token_urlsafe`.
- Signal and atexit registration and `sys.exit` are left out. `Runner.Registry.EmergencyCleanup` returns the exit code instead of exiting.
- YAML loading is replaced by a small `Yaml` value type. A mapping is an ordered list of distinct keys. A float is a finite real: `.inf` and `.nan`, which `int()` rejects, are not represented.
- JSON has no value type here. A missing saved-report field is taken at its default (`PriorEntry`), and a JSON boolean in `model_info` is not distinguished from a number.
- `str.format_map` is a parameter of the prompt interpolation.
- Python's `str()` of an exception is its given text.
- `repr` is modelled as quoting with `'`, without escaping (`Runner.Quoted`).
- `\d`, `\w`, `lower()` and the digits accepted by `int()` are ASCII-only. `\s` and `isspace` use the Unicode whitespace set.
- Iteration order over a Python set is a parameter `order` that enumerates the set. This affects the "Missing fields: …" texts.
- `os.pathsep` is fixed to `:`.
- Rich console tables, panels, logging and the `print_summary` output are left out.
- Percent and duration formatting in the results table is left out. Rate cells are modelled as `RateCell` values.
- The whole text of `generate_results_markdown` is not built. The splice takes the table as a parameter, and the header note, variant column, rate cells and perfect count are modelled separately.
- The "Available models" hint (the first ten sorted ids) of a failed availability check is left out.
- The `_scrub` secret redaction of the JSON report is left out: its case-insensitive alternation needs a regex model.
- `save_json_report`, `save_results_markdown` and `load_latest_report` are file plumbing. The latest report enters as `Option<PriorReport>`.
- Config.StrOr: a non-string value is an error here. The source stores it as it is and only later renders it in an f-string or fails on it (`rstrip` on `base_url`). The model's records hold strings.
- Config.StrRequired: as `Config.StrOr`, a non-string `name`, `base_url` or `model_id` is an error here, while the source stores it as it is.
- Config.IntOr: a float, string, null, list or mapping is an error here. The source stores it as it is; later arithmetic then fails for most of them, and a float timeout works. The model's records hold integers.
- Report.UpdateReadme: requires a table without backslashes. `re.sub` reads the replacement as a template, so a backslash (from a model name, say) is expanded as an escape or group reference, or raises `bad escape`; template expansion is not modelled.
- Runner.RunBenchmark: the OpenClaw version compared by skip-completed is one parameter. The source's global version can also change when a later model's pipeline detects a new version.
- Runner.RunBenchmark: the early version detection before the loop is left out; its result is that parameter.
- Environment.RedactedHidesSecrets: proved only for secrets without `*`. A secret containing `*` could be re-formed by the `***` replacement.
- Environment.QueryContextWindow: only the dictionary shapes of the answer are modelled. A non-dictionary `model_info` is not.
- The exception-catching wrapper of `_read_back_config` is left out. A failure to read is modelled as a missing file.
- `install_openclaw`, `detect_openclaw_version`, `start_gateway`, `stop_gateway` and `cleanup` are external effects. Each is an outcome in `SingleModelSteps` or a flag returned by the registry.
- The command-line entry point (`run_benchmark.py`) is left out, as is `benchmark/__init__.py`, which is only a docstring.
