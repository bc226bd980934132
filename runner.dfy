/**
  The benchmark orchestrator: model filtering, the pre-flight gate, the skip-completed
  lookup, the retry loop around each run, the per-variant aggregation, and the cleanup
  registry around a single model's pipeline.
  One attempt of one run is an abstract `Trial`: the pipeline behind it (installation,
  gateway processes, agent conversation) is outside this orchestration.
*/
module Runner {
  import opened Common
  import opened Config
  import opened Bootstrap
  import opened Verify
  import opened Report
  import Preflight

  // ---------------------------------------------------------------------------
  // Retries

  /** The outcome of attempt `attempt` of run `runIdx` of a model under a prompt variant. */
  type Trial = (ModelConfig, PromptVariant, nat, nat) -> Run

  /** A run is an infrastructure failure when it carries an error text or a failed turn. */
  predicate IsInfraFailure(run: Run) {
    run.0.error != [] || exists k :: 0 <= k < |run.0.turns| && !run.0.turns[k].success
  }

  /** The run kept from attempts `attempt..last`: the first that is no infrastructure failure, else the last. */
  function AcceptedFrom(trial: Trial, m: ModelConfig, v: PromptVariant, runIdx: nat, attempt: nat, last: nat): Run
    requires 1 <= attempt <= last
    decreases last - attempt
  {
    var run := trial(m, v, runIdx, attempt);
    if !IsInfraFailure(run) || attempt == last then run
    else AcceptedFrom(trial, m, v, runIdx, attempt + 1, last)
  }

  /** Attempts `from..a-1` of a run were all infrastructure failures. */
  ghost predicate EarlierFailed(trial: Trial, m: ModelConfig, v: PromptVariant, runIdx: nat, from: nat, a: nat) {
    forall b :: from <= b < a ==> IsInfraFailure(trial(m, v, runIdx, b))
  }

  /** `run` is attempt `a` of `from..last`, every earlier attempt failed, and it succeeded unless it was the last. */
  ghost predicate KeptAttempt(trial: Trial, m: ModelConfig, v: PromptVariant, runIdx: nat, from: nat, last: nat, a: nat, run: Run) {
    from <= a <= last && run == trial(m, v, runIdx, a) && EarlierFailed(trial, m, v, runIdx, from, a)
    && (a < last ==> !IsInfraFailure(run))
  }

  /** `run` is what the retry rule keeps from attempts `from..last`. */
  ghost predicate Kept(trial: Trial, m: ModelConfig, v: PromptVariant, runIdx: nat, from: nat, last: nat, run: Run) {
    exists a :: KeptAttempt(trial, m, v, runIdx, from, last, a, run)
  }

  /** The kept run is some attempt `a`: every earlier attempt failed, and `a` itself succeeded unless it was the last. */
  lemma {:induction false} AcceptedIsFirstSuccess(trial: Trial, m: ModelConfig, v: PromptVariant, runIdx: nat, attempt: nat, last: nat)
    requires 1 <= attempt <= last
    ensures Kept(trial, m, v, runIdx, attempt, last, AcceptedFrom(trial, m, v, runIdx, attempt, last))
    decreases last - attempt
  {
    var run := trial(m, v, runIdx, attempt);
    if !IsInfraFailure(run) || attempt == last {
      assert KeptAttempt(trial, m, v, runIdx, attempt, last, attempt, run);
    } else {
      var kept := AcceptedFrom(trial, m, v, runIdx, attempt + 1, last);
      AcceptedIsFirstSuccess(trial, m, v, runIdx, attempt + 1, last);
      var a :| KeptAttempt(trial, m, v, runIdx, attempt + 1, last, a, kept);
      assert KeptAttempt(trial, m, v, runIdx, attempt, last, a, kept);
    }
  }

  /** The attempt loop of one run: `retries + 1` attempts at most, none at all when `retries` is negative. */
  method RunWithRetries(trial: Trial, m: ModelConfig, v: PromptVariant, runIdx: nat, retries: int)
    returns (result: Option<Run>)
    ensures retries < 0 ==> result == None
    ensures retries >= 0 ==> result == Some(AcceptedFrom(trial, m, v, runIdx, 1, retries + 1))
  {
    result := None;
    var attempt := 1;
    while attempt <= retries + 1
      invariant 1 <= attempt
      invariant retries < 0 ==> attempt == 1
      invariant retries >= 0 ==> attempt <= retries + 2
      invariant attempt == 1 ==> result == None
      invariant attempt <= retries + 1 ==>
                  AcceptedFrom(trial, m, v, runIdx, 1, retries + 1) == AcceptedFrom(trial, m, v, runIdx, attempt, retries + 1)
      invariant retries >= 0 && attempt == retries + 2 ==>
                  result == Some(AcceptedFrom(trial, m, v, runIdx, 1, retries + 1))
      decreases retries + 2 - attempt
    {
      var run := trial(m, v, runIdx, attempt);
      result := Some(run);
      if !IsInfraFailure(run) {
        assert AcceptedFrom(trial, m, v, runIdx, attempt, retries + 1) == run;
        return;
      }
      attempt := attempt + 1;
    }
  }

  /** The kept runs of one model under one variant, run indices counted from 1. */
  function VariantRuns(trial: Trial, m: ModelConfig, v: PromptVariant, nRuns: nat, retries: nat): (runs: seq<Run>)
    ensures |runs| == nRuns
    ensures forall k :: 0 <= k < nRuns ==> runs[k] == AcceptedFrom(trial, m, v, k + 1, 1, retries + 1)
  {
    seq(nRuns, k requires 0 <= k < nRuns => AcceptedFrom(trial, m, v, k + 1, 1, retries + 1))
  }

  /** The run loop of one variant; a negative retry count leaves a run without a result. */
  method RunRuns(trial: Trial, m: ModelConfig, v: PromptVariant, nRuns: nat, retries: int)
    returns (runs: Option<seq<Run>>)
    ensures retries >= 0 ==> runs == Some(VariantRuns(trial, m, v, nRuns, retries))
    ensures retries < 0 ==> runs == (if nRuns == 0 then Some([]) else None)
  {
    var kept: seq<Run> := [];
    for k := 0 to nRuns
      invariant retries < 0 ==> k == 0
      invariant |kept| == k
      invariant retries >= 0 ==>
                  forall t :: 0 <= t < k ==> kept[t] == AcceptedFrom(trial, m, v, t + 1, 1, retries + 1)
    {
      var result := RunWithRetries(trial, m, v, k + 1, retries);
      if result.None? {
        return None;
      }
      kept := kept + [result.value];
    }
    if retries >= 0 {
      assert kept == VariantRuns(trial, m, v, nRuns, retries);
    }
    runs := Some(kept);
  }

  /** `max(1, runs_per_model)`: every variant runs at least once. */
  function NRuns(cfg: BenchmarkConfig): (n: nat)
    ensures n >= 1
    ensures n >= cfg.runsPerModel
    ensures n == cfg.runsPerModel || n == 1
  {
    if cfg.runsPerModel >= 1 then cfg.runsPerModel else 1
  }

  /** The variants run: the configured ones, or a single "default" variant with the bootstrap prompts. */
  function VariantsToRun(cfg: BenchmarkConfig): (vs: seq<PromptVariant>)
    ensures |vs| >= 1
    ensures cfg.promptVariants != [] ==> vs == cfg.promptVariants
    ensures cfg.promptVariants == [] ==> vs == [PromptVariant("default", [])]
  {
    if cfg.promptVariants != [] then cfg.promptVariants else [PromptVariant("default", BootstrapPrompts(cfg))]
  }

  // ---------------------------------------------------------------------------
  // Model selection

  /** The configured models whose names were requested, in configuration order. */
  function FilterModels(ms: seq<ModelConfig>, names: seq<string>): (r: seq<ModelConfig>)
    ensures |r| <= |ms|
    ensures forall m :: m in r <==> m in ms && m.name in names
    decreases |ms|
  {
    if ms == [] then []
    else
      var last := ms[|ms| - 1];
      FilterModels(ms[..|ms| - 1], names) + (if last.name in names then [last] else [])
  }

  /** Filtering distributes over concatenation, so the kept models keep their relative order. */
  lemma {:induction false} FilterAppend(a: seq<ModelConfig>, b: seq<ModelConfig>, names: seq<string>)
    ensures FilterModels(a + b, names) == FilterModels(a, names) + FilterModels(b, names)
    decreases |b|
  {
    if b == [] {
      assert a + b == a;
    } else {
      var b' := b[..|b| - 1];
      assert (a + b)[..|a + b| - 1] == a + b';
      assert (a + b)[|a + b| - 1] == b[|b| - 1];
      FilterAppend(a, b', names);
    }
  }

  // ---------------------------------------------------------------------------
  // Skip-completed

  /** One model entry of the latest saved report, its missing fields already at their defaults. */
  datatype PriorEntry = PriorEntry(
    model: string,
    promptVariant: string,
    prompts: seq<string>,
    numRuns: nat,
    avgScore: real,
    avgDurationS: real,
    bootstrapRate: real,
    perfectRate: real,
    checkRates: map<string, real>)

  /** The latest saved report: the OpenClaw version it was taken with and its model entries. */
  datatype PriorReport = PriorReport(version: string, entries: seq<PriorEntry>)

  type Key = (string, string)

  function KeyOf(e: PriorEntry): Key {
    (e.model, e.promptVariant)
  }

  /** The lookup from (model, variant) to entry, a later entry replacing an earlier one. */
  function LookupOf(entries: seq<PriorEntry>): map<Key, PriorEntry> {
    if entries == [] then map[]
    else
      var last := entries[|entries| - 1];
      LookupOf(entries[..|entries| - 1])[KeyOf(last) := last]
  }

  /** The lookup holds exactly the keys of the entries. */
  lemma {:induction false} LookupKeys(entries: seq<PriorEntry>)
    ensures forall k :: k in LookupOf(entries) <==> exists i :: 0 <= i < |entries| && KeyOf(entries[i]) == k
  {
    if entries != [] {
      var p := entries[..|entries| - 1];
      var last := entries[|entries| - 1];
      LookupKeys(p);
      assert LookupOf(entries) == LookupOf(p)[KeyOf(last) := last];
      forall k ensures k in LookupOf(entries) <==> exists i :: 0 <= i < |entries| && KeyOf(entries[i]) == k {
        if k in LookupOf(entries) {
          if k == KeyOf(last) {
            assert KeyOf(entries[|entries| - 1]) == k;
          } else {
            var i :| 0 <= i < |p| && KeyOf(p[i]) == k;
            assert entries[i] == p[i];
          }
        }
        if exists i :: 0 <= i < |entries| && KeyOf(entries[i]) == k {
          var i :| 0 <= i < |entries| && KeyOf(entries[i]) == k;
          if i < |p| {
            assert p[i] == entries[i];
          }
        }
      }
    }
  }

  /** An entry whose key no later entry repeats is the one the lookup keeps. */
  lemma {:induction false} LookupLast(entries: seq<PriorEntry>, i: nat)
    requires i < |entries| && forall j :: i < j < |entries| ==> KeyOf(entries[j]) != KeyOf(entries[i])
    ensures KeyOf(entries[i]) in LookupOf(entries) && LookupOf(entries)[KeyOf(entries[i])] == entries[i]
  {
    var p := entries[..|entries| - 1];
    var last := entries[|entries| - 1];
    assert LookupOf(entries) == LookupOf(p)[KeyOf(last) := last];
    if i < |p| {
      assert p[i] == entries[i];
      forall j | i < j < |p| ensures KeyOf(p[j]) != KeyOf(p[i]) {
        assert p[j] == entries[j];
      }
      LookupLast(p, i);
      assert KeyOf(last) != KeyOf(entries[i]);
    }
  }

  /** The lookup holds exactly the keys of the entries, each bound to the last entry with that key. */
  lemma LaterEntryWins(entries: seq<PriorEntry>)
    ensures forall k :: k in LookupOf(entries) <==> exists i :: 0 <= i < |entries| && KeyOf(entries[i]) == k
    ensures forall i :: 0 <= i < |entries| && (forall j :: i < j < |entries| ==> KeyOf(entries[j]) != KeyOf(entries[i]))
                        ==> KeyOf(entries[i]) in LookupOf(entries) && LookupOf(entries)[KeyOf(entries[i])] == entries[i]
  {
    LookupKeys(entries);
    forall i | 0 <= i < |entries| && (forall j :: i < j < |entries| ==> KeyOf(entries[j]) != KeyOf(entries[i]))
      ensures KeyOf(entries[i]) in LookupOf(entries) && LookupOf(entries)[KeyOf(entries[i])] == entries[i]
    {
      LookupLast(entries, i);
    }
  }

  /** The loop filling the lookup from the saved report's entries. */
  method BuildPriorLookup(entries: seq<PriorEntry>) returns (lookup: map<Key, PriorEntry>)
    ensures lookup == LookupOf(entries)
  {
    lookup := map[];
    for i := 0 to |entries|
      invariant lookup == LookupOf(entries[..i])
    {
      assert entries[..i + 1][..i] == entries[..i];
      lookup := lookup[KeyOf(entries[i]) := entries[i]];
    }
    assert entries[..|entries|] == entries;
  }

  /** The text of a string as Python's `repr` shows one without quotes or backslashes inside. */
  function Quoted(s: string): string {
    "'" + s + "'"
  }

  /** The reason given when the saved report was taken with another OpenClaw version. */
  function VersionChanged(prev: string, cur: string): (reason: string)
    ensures |reason| > |PromptsChanged|
  {
    "OpenClaw version changed: " + Quoted(prev) + " → " + Quoted(cur)
  }

  const PromptsChanged: string := "prompt text changed"

  /** Whether a model/variant pair is carried over from the saved report, or why it is run again. */
  datatype SkipDecision = Reuse(result: AggregatedResult) | Rerun(reasons: seq<string>) | NotInPrior

  /** The aggregate rebuilt from a saved entry: no raw runs, per-check rates defaulting to zero. */
  function Carried(e: PriorEntry): AggregatedResult {
    AggregatedResult(
      e.model, [], e.promptVariant, e.prompts, e.numRuns,
      e.avgScore, e.avgDurationS, e.bootstrapRate, e.perfectRate,
      Get(e.checkRates, "BOOTSTRAP.md", 0.0),
      Get(e.checkRates, "IDENTITY.md", 0.0),
      Get(e.checkRates, "USER.md", 0.0),
      Get(e.checkRates, "SOUL.md", 0.0))
  }

  /** The skip-completed decision for one model/variant pair. */
  function DecideSkip(lookup: map<Key, PriorEntry>, prevVersion: string, version: string,
                      m: ModelConfig, v: PromptVariant): (d: SkipDecision)
    ensures d.NotInPrior? <==> (m.modelId, v.name) !in lookup
    ensures d.Reuse? <==> (m.modelId, v.name) in lookup && prevVersion == version
                          && lookup[(m.modelId, v.name)].prompts == v.prompts
    ensures d.Reuse? ==> d.result == Carried(lookup[(m.modelId, v.name)])
    ensures d.Rerun? ==> 1 <= |d.reasons| <= 2
    ensures d.Rerun? ==> (VersionChanged(prevVersion, version) in d.reasons <==> prevVersion != version)
    ensures d.Rerun? ==> (PromptsChanged in d.reasons <==> lookup[(m.modelId, v.name)].prompts != v.prompts)
    ensures d.Rerun? && prevVersion != version ==> d.reasons[0] == VersionChanged(prevVersion, version)
    ensures d.Rerun? && lookup[(m.modelId, v.name)].prompts != v.prompts ==> d.reasons[|d.reasons| - 1] == PromptsChanged
  {
    var key := (m.modelId, v.name);
    if key !in lookup then NotInPrior
    else
      var e := lookup[key];
      var versionMatch := prevVersion == version;
      var promptsMatch := e.prompts == v.prompts;
      if versionMatch && promptsMatch then Reuse(Carried(e))
      else
        var vr := VersionChanged(prevVersion, version);
        assert vr != PromptsChanged;
        Rerun((if versionMatch then [] else [vr]) + (if promptsMatch then [] else [PromptsChanged]))
  }

  // ---------------------------------------------------------------------------
  // The benchmark

  /** What stays fixed while the models and variants run. */
  datatype Session = Session(
    skipCompleted: bool,
    lookup: map<Key, PriorEntry>,
    prevVersion: string,
    version: string,
    retries: int,
    nRuns: nat,
    trial: Trial)

  predicate Reused(s: Session, m: ModelConfig, v: PromptVariant) {
    s.skipCompleted && DecideSkip(s.lookup, s.prevVersion, s.version, m, v).Reuse?
  }

  /** The aggregate recorded for one model under one variant. */
  function VariantResult(s: Session, m: ModelConfig, v: PromptVariant): AggregatedResult
    requires s.retries >= 0 || Reused(s, m, v)
  {
    if Reused(s, m, v) then DecideSkip(s.lookup, s.prevVersion, s.version, m, v).result
    else Aggregate(m.modelId, VariantRuns(s.trial, m, v, s.nRuns, s.retries), v.name, Some(v.prompts))
  }

  /** A variant skipped as completed carries the saved entry, taken with the same version and prompts. */
  lemma ReusedCarriesPrior(s: Session, m: ModelConfig, v: PromptVariant)
    requires Reused(s, m, v)
    ensures (m.modelId, v.name) in s.lookup
    ensures s.prevVersion == s.version && s.lookup[(m.modelId, v.name)].prompts == v.prompts
    ensures VariantResult(s, m, v) == Carried(s.lookup[(m.modelId, v.name)])
  {
  }

  /** A run variant keeps the model, the variant and its prompts, and counts `n_runs` runs. */
  lemma RunVariantFields(s: Session, m: ModelConfig, v: PromptVariant)
    requires s.retries >= 0 && !Reused(s, m, v)
    ensures VariantResult(s, m, v).modelName == m.modelId
    ensures VariantResult(s, m, v).promptVariant == v.name
    ensures VariantResult(s, m, v).promptVariantPrompts == v.prompts
    ensures VariantResult(s, m, v).numRuns == s.nRuns
    ensures VariantResult(s, m, v).runs == VariantRuns(s.trial, m, v, s.nRuns, s.retries)
  {
    var runs := VariantRuns(s.trial, m, v, s.nRuns, s.retries);
    assert VariantResult(s, m, v) == Aggregate(m.modelId, runs, v.name, Some(v.prompts));
    hide *;
    AggregateKeepsIdentity(m.modelId, runs, v.name, Some(v.prompts));
  }

  /** Each run of a run variant is the one the retry rule keeps for its index. */
  lemma VariantRunsKept(trial: Trial, m: ModelConfig, v: PromptVariant, nRuns: nat, retries: nat)
    ensures forall k :: 0 <= k < nRuns ==>
              Kept(trial, m, v, k + 1, 1, retries + 1, VariantRuns(trial, m, v, nRuns, retries)[k])
  {
    var runs := VariantRuns(trial, m, v, nRuns, retries);
    hide *;
    forall k | 0 <= k < nRuns
      ensures Kept(trial, m, v, k + 1, 1, retries + 1, runs[k])
    {
      AcceptedIsFirstSuccess(trial, m, v, k + 1, 1, retries + 1);
    }
  }

  /** A run variant aggregates `n_runs` kept runs, each chosen by the retry rule. */
  lemma RunVariantMeaning(s: Session, m: ModelConfig, v: PromptVariant)
    requires s.retries >= 0 && !Reused(s, m, v)
    ensures VariantResult(s, m, v).modelName == m.modelId
    ensures VariantResult(s, m, v).promptVariant == v.name
    ensures VariantResult(s, m, v).promptVariantPrompts == v.prompts
    ensures VariantResult(s, m, v).numRuns == s.nRuns
    ensures |VariantResult(s, m, v).runs| == s.nRuns
    ensures forall k :: 0 <= k < s.nRuns ==>
              Kept(s.trial, m, v, k + 1, 1, s.retries + 1, VariantResult(s, m, v).runs[k])
  {
    hide *;
    RunVariantFields(s, m, v);
    VariantRunsKept(s.trial, m, v, s.nRuns, s.retries);
  }



  predicate ModelCanRun(s: Session, m: ModelConfig, vs: seq<PromptVariant>) {
    s.retries >= 0 || forall j :: 0 <= j < |vs| ==> Reused(s, m, vs[j])
  }

  /** The aggregates of one model, one per variant in order. */
  function ModelResults(s: Session, m: ModelConfig, vs: seq<PromptVariant>): (r: seq<AggregatedResult>)
    requires ModelCanRun(s, m, vs)
    ensures |r| == |vs|
    ensures forall j :: 0 <= j < |vs| ==> r[j] == VariantResult(s, m, vs[j])
  {
    seq(|vs|, j requires 0 <= j < |vs| => VariantResult(s, m, vs[j]))
  }

  /** No pair needs a run that a negative retry count would leave without a result. */
  predicate CanRun(s: Session, ms: seq<ModelConfig>, vs: seq<PromptVariant>) {
    s.retries >= 0 || forall i, j :: 0 <= i < |ms| && 0 <= j < |vs| ==> Reused(s, ms[i], vs[j])
  }

  /** The aggregates of every model, model-major. */
  function AllResults(s: Session, ms: seq<ModelConfig>, vs: seq<PromptVariant>): seq<AggregatedResult>
    requires CanRun(s, ms, vs)
    decreases |ms|
  {
    if ms == [] then []
    else
      var p := ms[..|ms| - 1];
      assert forall i :: 0 <= i < |p| ==> p[i] == ms[i];
      AllResults(s, p, vs) + ModelResults(s, ms[|ms| - 1], vs)
  }

  function Slot(i: nat, j: nat, width: nat): nat {
    i * width + j
  }

  lemma SlotBelow(i: nat, j: nat, width: nat, n: nat)
    requires i < n && j < width
    ensures Slot(i, j, width) < n * width
  {
    assert (i + 1) * width == i * width + width;
    assert (i + 1) * width <= n * width;
  }

  /** The results hold one aggregate per model and variant, model `i` and variant `j` at slot `i * |vs| + j`. */
  lemma {:induction false} AllResultsShape(s: Session, ms: seq<ModelConfig>, vs: seq<PromptVariant>)
    requires CanRun(s, ms, vs)
    ensures |AllResults(s, ms, vs)| == |ms| * |vs|
    ensures forall i, j :: 0 <= i < |ms| && 0 <= j < |vs| ==>
              Slot(i, j, |vs|) < |AllResults(s, ms, vs)|
              && AllResults(s, ms, vs)[Slot(i, j, |vs|)] == VariantResult(s, ms[i], vs[j])
    decreases |ms|
  {
    if ms != [] {
      var n := |ms|;
      var w := |vs|;
      var p := ms[..n - 1];
      assert forall i :: 0 <= i < |p| ==> p[i] == ms[i];
      assert CanRun(s, p, vs) && ModelCanRun(s, ms[n - 1], vs);
      AllResultsShape(s, p, vs);
      var prev := AllResults(s, p, vs);
      var last := ModelResults(s, ms[n - 1], vs);
      assert AllResults(s, ms, vs) == prev + last;
      hide AllResults, ModelResults, VariantResult, CanRun, ModelCanRun, Reused;
      assert |prev| == (n - 1) * w;
      assert (n - 1) * w + w == n * w;
      forall i, j | 0 <= i < n && 0 <= j < w
        ensures Slot(i, j, w) < |AllResults(s, ms, vs)|
        ensures AllResults(s, ms, vs)[Slot(i, j, w)] == VariantResult(s, ms[i], vs[j])
      {
        if i < n - 1 {
          SlotBelow(i, j, w, n - 1);
          assert p[i] == ms[i];
        } else {
          assert Slot(i, j, w) == |prev| + j;
        }
      }
    }
  }

  /** One variant of one model: carried over, or run and aggregated; `None` marks the failed `assert`. */
  method RunVariant(s: Session, m: ModelConfig, v: PromptVariant) returns (r: Option<AggregatedResult>)
    requires s.nRuns >= 1
    ensures s.retries >= 0 || Reused(s, m, v) ==> r == Some(VariantResult(s, m, v))
    ensures !(s.retries >= 0 || Reused(s, m, v)) ==> r == None
  {
    if s.skipCompleted {
      var d := DecideSkip(s.lookup, s.prevVersion, s.version, m, v);
      if d.Reuse? {
        return Some(d.result);
      }
    }
    var runs := RunRuns(s.trial, m, v, s.nRuns, s.retries);
    if runs.None? {
      return None;
    }
    var ag := AggregateRuns(m.modelId, runs.value, v.name, Some(v.prompts));
    r := Some(ag);
  }

  /** The variant loop of one model. */
  method RunModel(s: Session, m: ModelConfig, vs: seq<PromptVariant>) returns (r: Option<seq<AggregatedResult>>)
    requires s.nRuns >= 1
    ensures ModelCanRun(s, m, vs) ==> r == Some(ModelResults(s, m, vs))
    ensures !ModelCanRun(s, m, vs) ==> r == None
  {
    hide VariantResult, Aggregate, DecideSkip, VariantRuns;
    var results: seq<AggregatedResult> := [];
    for j := 0 to |vs|
      invariant |results| == j
      invariant forall k :: 0 <= k < j ==> (s.retries >= 0 || Reused(s, m, vs[k]))
      invariant forall k :: 0 <= k < j ==> results[k] == VariantResult(s, m, vs[k])
    {
      var ag := RunVariant(s, m, vs[j]);
      if ag.None? {
        return None;
      }
      results := results + [ag.value];
    }
    assert results == ModelResults(s, m, vs);
    r := Some(results);
  }

  /** The outcome of the benchmark loop: every aggregate, or the failed `assert` of a run without a result. */
  datatype Outcome = Exit(code: int) | AssertionFailed | Finished(results: seq<AggregatedResult>)

  /** The model loop. */
  method RunAll(s: Session, ms: seq<ModelConfig>, vs: seq<PromptVariant>) returns (outcome: Outcome)
    requires s.nRuns >= 1
    ensures CanRun(s, ms, vs) ==> outcome == Finished(AllResults(s, ms, vs))
    ensures !CanRun(s, ms, vs) ==> outcome == AssertionFailed
  {
    hide VariantResult, Aggregate, DecideSkip, VariantRuns;
    var results: seq<AggregatedResult> := [];
    for i := 0 to |ms|
      invariant CanRun(s, ms[..i], vs)
      invariant results == AllResults(s, ms[..i], vs)
    {
      var mr := RunModel(s, ms[i], vs);
      if mr.None? {
        return AssertionFailed;
      }
      var p := ms[..i + 1];
      assert p[..i] == ms[..i];
      assert forall i' :: 0 <= i' < i + 1 ==> p[i'] == ms[i'];
      assert CanRun(s, p, vs);
      results := results + mr.value;
    }
    assert ms[..|ms|] == ms;
    outcome := Finished(results);
  }

  /** A benchmark invocation: the configuration, the command-line options and the outside world's answers. */
  datatype Invocation = Invocation(
    cfg: BenchmarkConfig,
    requested: seq<string>,
    runsOverride: Option<int>,
    skipInstall: bool,
    skipPreflight: bool,
    skipCompleted: bool,
    prior: Option<PriorReport>,
    probes: Preflight.Probes,
    version: string,
    trial: Trial)

  /** The configuration after the `--runs` override and the model filter. */
  function Effective(inp: Invocation): BenchmarkConfig {
    var c := inp.cfg.(runsPerModel := inp.runsOverride.GetOr(inp.cfg.runsPerModel));
    if inp.requested != [] then c.(models := FilterModels(c.models, inp.requested)) else c
  }

  function SessionOf(inp: Invocation, c: BenchmarkConfig): Session {
    var hasPrior := inp.skipCompleted && inp.prior.Some?;
    Session(
      inp.skipCompleted,
      if hasPrior then LookupOf(inp.prior.value.entries) else map[],
      if hasPrior then inp.prior.value.version else "",
      inp.version,
      c.retries,
      NRuns(c),
      inp.trial)
  }

  /** What `run_benchmark` ends with. */
  function Benchmark(inp: Invocation): Outcome {
    if inp.cfg.models == [] then Exit(1)
    else
      var c := Effective(inp);
      if c.models == [] then Exit(1)
      else if !inp.skipPreflight && Preflight.FailedOf(Preflight.PreflightChecks(c, inp.skipInstall, inp.probes)) != [] then Exit(2)
      else
        var s := SessionOf(inp, c);
        var vs := VariantsToRun(c);
        if CanRun(s, c.models, vs) then Finished(AllResults(s, c.models, vs)) else AssertionFailed
  }

  /** `run_benchmark`: the guards, the pre-flight report, the saved-report lookup and the loops. */
  method RunBenchmark(inp: Invocation) returns (outcome: Outcome)
    ensures outcome == Benchmark(inp)
  {
    hide AllResults, CanRun, Preflight.PreflightChecks, LookupOf, FilterModels, VariantsToRun;
    if inp.cfg.models == [] {
      return Exit(1);
    }
    var c := inp.cfg;
    if inp.runsOverride.Some? {
      c := c.(runsPerModel := inp.runsOverride.value);
    }
    if inp.requested != [] {
      c := c.(models := FilterModels(c.models, inp.requested));
      if c.models == [] {
        return Exit(1);
      }
    }
    assert c == Effective(inp);
    if !inp.skipPreflight {
      var report := Preflight.RunPreflight(c, inp.skipInstall, inp.probes);
      if !report.AllPassed() {
        return Exit(2);
      }
    }
    var lookup: map<Key, PriorEntry> := map[];
    var prevVersion := "";
    if inp.skipCompleted && inp.prior.Some? {
      prevVersion := inp.prior.value.version;
      lookup := BuildPriorLookup(inp.prior.value.entries);
    }
    var s := Session(inp.skipCompleted, lookup, prevVersion, inp.version, c.retries, NRuns(c), inp.trial);
    assert s == SessionOf(inp, c);
    outcome := RunAll(s, c.models, VariantsToRun(c));
  }

  /** The exit codes and outcomes of a benchmark invocation. */
  lemma BenchmarkOutcomes(inp: Invocation)
    ensures Benchmark(inp) == Exit(1) <==> Effective(inp).models == []
    ensures Benchmark(inp) == Exit(2) <==>
              Effective(inp).models != [] && !inp.skipPreflight
              && exists k :: 0 <= k < |Preflight.PreflightChecks(Effective(inp), inp.skipInstall, inp.probes)|
                             && !Preflight.PreflightChecks(Effective(inp), inp.skipInstall, inp.probes)[k].passed
    ensures Benchmark(inp).AssertionFailed? ==> inp.cfg.retries < 0
    ensures inp.cfg.retries >= 0 && Effective(inp).models != [] && Benchmark(inp) != Exit(2) ==> Benchmark(inp).Finished?
  {
    var c := Effective(inp);
    var checks := Preflight.PreflightChecks(c, inp.skipInstall, inp.probes);
    var sess := SessionOf(inp, c);
    var vs := VariantsToRun(c);
    assert c.retries == inp.cfg.retries;
    if inp.cfg.models == [] {
      assert c.models == [];
    }
    assert Benchmark(inp) == (
      if c.models == [] then Exit(1)
      else if !inp.skipPreflight && Preflight.FailedOf(checks) != [] then Exit(2)
      else if CanRun(sess, c.models, vs) then Finished(AllResults(sess, c.models, vs))
      else AssertionFailed);
    assert inp.cfg.retries >= 0 ==> CanRun(sess, c.models, vs);
    hide Benchmark, Effective, SessionOf, CanRun, AllResults, Preflight.PreflightChecks;
    if Preflight.FailedOf(checks) != [] {
      var f := Preflight.FailedOf(checks)[0];
      assert f in checks && !f.passed;
    }
  }


  /** A finished benchmark holds one aggregate per selected model and variant, in model-major order. */
  lemma FinishedShape(inp: Invocation)
    requires Benchmark(inp).Finished?
    ensures var c := Effective(inp);
            var vs := VariantsToRun(c);
            var s := SessionOf(inp, c);
            |Benchmark(inp).results| == |c.models| * |vs|
            && CanRun(s, c.models, vs)
            && forall i, j :: 0 <= i < |c.models| && 0 <= j < |vs| ==>
                 Slot(i, j, |vs|) < |Benchmark(inp).results|
                 && Benchmark(inp).results[Slot(i, j, |vs|)] == VariantResult(s, c.models[i], vs[j])
  {
    var c := Effective(inp);
    var vs := VariantsToRun(c);
    var sess := SessionOf(inp, c);
    assert CanRun(sess, c.models, vs) && Benchmark(inp).results == AllResults(sess, c.models, vs);
    hide *;
    AllResultsShape(sess, c.models, vs);
  }

  // ---------------------------------------------------------------------------
  // One model's pipeline and the cleanup registry

  /** What each step of `run_single_model` produced; an exception text stops the pipeline there. */
  datatype SingleModelSteps = SingleModelSteps(
    installError: Option<string>,
    detected: string,
    configError: Option<string>,
    onboardExit: int,
    gatewayError: Option<string>,
    laterError: Option<string>,
    conversation: BootstrapResult,
    verification: VerificationResult)

  const OnboardingFailed: string := "Onboarding failed"
  const UnknownVersion: string := "unknown"

  /** The pair recorded for a pipeline that stopped: the error text, no turns, an empty failing verdict. */
  function Failed(modelId: string, error: string): Run {
    (BootstrapResult(modelId, [], 0.0, false, error), VerificationResult(modelId, [], false, 0.0))
  }

  predicate InstallSucceeded(skipInstall: bool, st: SingleModelSteps) {
    skipInstall || st.installError.None?
  }

  predicate GatewayStarted(skipInstall: bool, st: SingleModelSteps) {
    InstallSucceeded(skipInstall, st) && st.configError.None? && st.onboardExit == 0 && st.gatewayError.None?
  }

  /** The pair `run_single_model` returns. */
  function SingleModelRun(model: ModelConfig, skipInstall: bool, st: SingleModelSteps): Run {
    var id := model.modelId;
    if !InstallSucceeded(skipInstall, st) then Failed(id, st.installError.value)
    else if st.configError.Some? then Failed(id, st.configError.value)
    else if st.onboardExit != 0 then Failed(id, OnboardingFailed)
    else if st.gatewayError.Some? then Failed(id, st.gatewayError.value)
    else if st.laterError.Some? then Failed(id, st.laterError.value)
    else (st.conversation, st.verification)
  }

  /** A failed onboarding is an infrastructure failure with a zero score, so the run is retried. */
  lemma OnboardingFailureRetried(model: ModelConfig, skipInstall: bool, st: SingleModelSteps)
    requires InstallSucceeded(skipInstall, st) && st.configError.None? && st.onboardExit != 0
    ensures SingleModelRun(model, skipInstall, st).0.error == OnboardingFailed
    ensures IsInfraFailure(SingleModelRun(model, skipInstall, st))
    ensures SingleModelRun(model, skipInstall, st).1.score == 0.0
    ensures !SingleModelRun(model, skipInstall, st).1.allPassed
  {
  }

  /** A pipeline that stops early has no turns, so it counts as an infrastructure failure exactly when its error text is non-empty. */
  lemma StoppedPipelineRetriedIffMessage(model: ModelConfig, skipInstall: bool, st: SingleModelSteps)
    requires !GatewayStarted(skipInstall, st) || st.laterError.Some?
    ensures SingleModelRun(model, skipInstall, st).1 == VerificationResult(model.modelId, [], false, 0.0)
    ensures SingleModelRun(model, skipInstall, st).0.turns == []
    ensures IsInfraFailure(SingleModelRun(model, skipInstall, st)) <==> SingleModelRun(model, skipInstall, st).0.error != []
  {
  }

  /** A completed pipeline records the conversation's outcome and the verdict unchanged. */
  lemma CompletedPipelineKeepsVerdict(model: ModelConfig, skipInstall: bool, st: SingleModelSteps)
    requires GatewayStarted(skipInstall, st) && st.laterError.None?
    ensures SingleModelRun(model, skipInstall, st) == (st.conversation, st.verification)
    ensures IsInfraFailure(SingleModelRun(model, skipInstall, st)) <==>
              st.conversation.error != [] || exists k :: 0 <= k < |st.conversation.turns| && !st.conversation.turns[k].success
  {
  }

  /**
    The module-level cleanup registry: the environment and gateway in use, the keep-environment
    flag and the detected OpenClaw version. Environments are named by their home directory and
    gateways by their process id.
  */
  class Registry {
    var activeEnv: Option<string>
    var activeGateway: Option<nat>
    var keepEnvFlag: bool
    var version: string

    constructor()
      ensures activeEnv == None && activeGateway == None && !keepEnvFlag && version == UnknownVersion
    {
      activeEnv := None;
      activeGateway := None;
      keepEnvFlag := false;
      version := UnknownVersion;
    }

    /**
      `_emergency_cleanup`: stop the registered gateway, remove the registered environment unless it
      is kept, and exit with `128 + signum` when called for a signal.
    */
    method EmergencyCleanup(signal: Option<int>) returns (stoppedGateway: bool, removedEnv: bool, exitCode: Option<int>)
      modifies this
      ensures stoppedGateway <==> old(activeGateway).Some?
      ensures removedEnv <==> old(activeEnv).Some? && !keepEnvFlag
      ensures activeGateway == None
      ensures activeEnv == (if removedEnv then None else old(activeEnv))
      ensures keepEnvFlag == old(keepEnvFlag) && version == old(version)
      ensures signal.None? <==> exitCode.None?
      ensures signal.Some? ==> exitCode == Some(128 + signal.value)
    {
      stoppedGateway := false;
      removedEnv := false;
      if activeGateway.Some? {
        stoppedGateway := true;
        activeGateway := None;
      }
      if activeEnv.Some? && !keepEnvFlag {
        removedEnv := true;
        activeEnv := None;
      }
      exitCode := if signal.Some? then Some(128 + signal.value) else None;
    }

    /**
      `run_single_model`: the environment and, once started, the gateway are registered while the
      pipeline runs; on every path the gateway is stopped if it was started, the environment is
      removed unless kept, and both are deregistered.
    */
    method RunSingleModel(model: ModelConfig, homeDir: string, gatewayPid: nat, skipInstall: bool,
                          keepEnv: bool, st: SingleModelSteps)
      returns (run: Run, stoppedGateway: bool, removedEnv: bool)
      modifies this
      ensures run == SingleModelRun(model, skipInstall, st)
      ensures stoppedGateway <==> GatewayStarted(skipInstall, st)
      ensures removedEnv <==> !keepEnv
      ensures activeEnv == None && activeGateway == None && keepEnvFlag == keepEnv
      ensures version == (if InstallSucceeded(skipInstall, st) && st.detected != UnknownVersion
                          then st.detected else old(version))
    {
      keepEnvFlag := keepEnv;
      activeEnv := Some(homeDir);
      var gateway: Option<nat> := None;
      var id := model.modelId;
      if !skipInstall && st.installError.Some? {
        run := Failed(id, st.installError.value);
      } else {
        if st.detected != UnknownVersion {
          version := st.detected;
        }
        if st.configError.Some? {
          run := Failed(id, st.configError.value);
        } else if st.onboardExit != 0 {
          run := Failed(id, OnboardingFailed);
        } else if st.gatewayError.Some? {
          run := Failed(id, st.gatewayError.value);
        } else {
          gateway := Some(gatewayPid);
          activeGateway := gateway;
          if st.laterError.Some? {
            run := Failed(id, st.laterError.value);
          } else {
            run := (st.conversation, st.verification);
          }
        }
      }
      stoppedGateway := gateway.Some?;
      activeGateway := None;
      removedEnv := !keepEnv;
      activeEnv := None;
    }
  }
}
