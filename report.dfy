/**
  Aggregation of repeated runs of one model and the README results splice.
  A run pairs the bootstrap conversation's outcome with the workspace verdict; averages and
  rates are exact `real`s, and the percent formatting of the tables is not part of this model.
*/
module Report {
  import opened Common
  import opened Text
  import opened Verify
  import opened Bootstrap

  /** One independent run: the conversation outcome and the workspace verdict. */
  type Run = (BootstrapResult, VerificationResult)

  /** The averaged statistics of one model under one prompt variant. */
  datatype AggregatedResult = AggregatedResult(
    modelName: string,
    runs: seq<Run>,
    promptVariant: string,
    promptVariantPrompts: seq<string>,
    numRuns: nat,
    avgScore: real,
    avgDurationS: real,
    bootstrapRate: real,
    perfectRate: real,
    bootstrapMdRate: real,
    identityRate: real,
    userRate: real,
    soulRate: real)

  /** The number of elements satisfying `p`. */
  function CountWhere<T>(xs: seq<T>, p: T -> bool): (n: nat)
    ensures n <= |xs|
    ensures n == |xs| <==> forall i :: 0 <= i < |xs| ==> p(xs[i])
    ensures n == 0 <==> forall i :: 0 <= i < |xs| ==> !p(xs[i])
    decreases |xs|
  {
    if xs == [] then 0
    else CountWhere(xs[..|xs| - 1], p) + (if p(xs[|xs| - 1]) then 1 else 0)
  }

  /** The sum of `f` over the elements. */
  function Sum<T>(xs: seq<T>, f: T -> real): real
    decreases |xs|
  {
    if xs == [] then 0.0 else Sum(xs[..|xs| - 1], f) + f(xs[|xs| - 1])
  }

  /** A sum of terms each in [0, 1] lies in [0, n]. */
  lemma {:induction false} SumBounded<T>(xs: seq<T>, f: T -> real)
    requires forall i :: 0 <= i < |xs| ==> 0.0 <= f(xs[i]) <= 1.0
    ensures 0.0 <= Sum(xs, f) <= |xs| as real
    decreases |xs|
  {
    if xs != [] {
      var init := xs[..|xs| - 1];
      assert forall i :: 0 <= i < |init| ==> init[i] == xs[i];
      SumBounded(init, f);
    }
  }

  function Score(run: Run): real { run.1.score }
  function Duration(run: Run): real { run.0.totalDurationS }
  predicate Completed(run: Run) { run.0.bootstrapCompleted }
  predicate Perfect(run: Run) { run.1.allPassed }

  /** The checks of one run for `filename` that passed. */
  function PassedFor(checks: seq<FileCheck>, filename: string): nat
    decreases |checks|
  {
    if checks == [] then 0
    else
      var c := checks[|checks| - 1];
      PassedFor(checks[..|checks| - 1], filename) + (if c.filename == filename && c.passed then 1 else 0)
  }

  /** The passed checks for `filename`, counted over every run. */
  function PassedOver(runs: seq<Run>, filename: string): nat
    decreases |runs|
  {
    if runs == [] then 0
    else PassedOver(runs[..|runs| - 1], filename) + PassedFor(runs[|runs| - 1].1.checks, filename)
  }

  /**
    The per-check pass rate: every check with that filename that passed, over all runs,
    divided by the number of runs. Called only for a non-empty list of runs.
  */
  method CheckRate(runs: seq<Run>, filename: string) returns (rate: real)
    requires |runs| > 0
    ensures rate == PassedOver(runs, filename) as real / |runs| as real
  {
    var passed := 0;
    for i := 0 to |runs|
      invariant passed == PassedOver(runs[..i], filename)
    {
      var checks := runs[i].1.checks;
      for j := 0 to |checks|
        invariant passed == PassedOver(runs[..i], filename) + PassedFor(checks[..j], filename)
      {
        var c := checks[j];
        assert checks[..j + 1][..j] == checks[..j];
        if c.filename == filename && c.passed {
          passed := passed + 1;
        }
      }
      assert checks[..|checks|] == checks;
      assert runs[..i + 1][..i] == runs[..i];
    }
    assert runs[..|runs|] == runs;
    rate := passed as real / |runs| as real;
  }

  /** The aggregate `aggregate_runs` returns, stated on values. */
  function Aggregate(modelName: string, runs: seq<Run>, variant: string, prompts: Option<seq<string>>)
    : AggregatedResult
  {
    var n := |runs|;
    if n == 0 then
      AggregatedResult(modelName, [], variant, prompts.GetOr([]), 0,
                       0.0, 0.0, 0.0, 0.0, 0.0, 0.0, 0.0, 0.0)
    else
      AggregatedResult(
        modelName, runs, variant, prompts.GetOr([]), n,
        Sum(runs, Score) / n as real,
        Sum(runs, Duration) / n as real,
        CountWhere(runs, Completed) as real / n as real,
        CountWhere(runs, Perfect) as real / n as real,
        PassedOver(runs, "BOOTSTRAP.md") as real / n as real,
        PassedOver(runs, "IDENTITY.md") as real / n as real,
        PassedOver(runs, "USER.md") as real / n as real,
        PassedOver(runs, "SOUL.md") as real / n as real)
  }

  /** `aggregate_runs`: the counting loops of the per-check rates run as `CheckRate`. */
  method AggregateRuns(modelName: string, runs: seq<Run>, variant: string, prompts: Option<seq<string>>)
    returns (r: AggregatedResult)
    ensures r == Aggregate(modelName, runs, variant, prompts)
  {
    var n := |runs|;
    if n == 0 {
      return AggregatedResult(modelName, [], variant, prompts.GetOr([]), 0,
                              0.0, 0.0, 0.0, 0.0, 0.0, 0.0, 0.0, 0.0);
    }
    var bootstrapMd := CheckRate(runs, "BOOTSTRAP.md");
    var identity := CheckRate(runs, "IDENTITY.md");
    var user := CheckRate(runs, "USER.md");
    var soul := CheckRate(runs, "SOUL.md");
    r := AggregatedResult(
      modelName, runs, variant, prompts.GetOr([]), n,
      Sum(runs, Score) / n as real,
      Sum(runs, Duration) / n as real,
      CountWhere(runs, Completed) as real / n as real,
      CountWhere(runs, Perfect) as real / n as real,
      bootstrapMd, identity, user, soul);
  }

  /** With no runs every count, average and rate is zero and the prompts default to empty. */
  lemma NoRunsAllZero(modelName: string, variant: string, prompts: Option<seq<string>>)
    ensures var r := Aggregate(modelName, [], variant, prompts);
      && r.numRuns == 0 && r.runs == []
      && r.avgScore == 0.0 && r.avgDurationS == 0.0
      && r.bootstrapRate == 0.0 && r.perfectRate == 0.0
      && r.bootstrapMdRate == 0.0 && r.identityRate == 0.0 && r.userRate == 0.0 && r.soulRate == 0.0
      && (prompts.None? ==> r.promptVariantPrompts == [])
  {
  }

  /** The name and variant are carried through, and a given prompt list is kept. */
  lemma AggregateKeepsIdentity(modelName: string, runs: seq<Run>, variant: string, prompts: Option<seq<string>>)
    ensures var r := Aggregate(modelName, runs, variant, prompts);
      && r.modelName == modelName && r.promptVariant == variant && r.numRuns == |runs|
      && r.runs == runs
      && r.promptVariantPrompts == (if prompts.Some? then prompts.value else [])
  {
  }

  /** The average score is the mean of the run scores; it lies in [0, 1] when every score does. */
  lemma AverageScoreIsMean(modelName: string, runs: seq<Run>, variant: string, prompts: Option<seq<string>>)
    requires |runs| > 0
    requires forall i :: 0 <= i < |runs| ==> 0.0 <= runs[i].1.score <= 1.0
    ensures var r := Aggregate(modelName, runs, variant, prompts);
      && r.avgScore == Sum(runs, Score) / |runs| as real
      && 0.0 <= r.avgScore <= 1.0
  {
    var r := Aggregate(modelName, runs, variant, prompts);
    hide CountWhere, PassedOver, Sum;
    var total := Sum(runs, Score);
    assert r.avgScore == total / |runs| as real;
    SumBounded(runs, Score);
    MeanBounded(total, |runs|);
  }

  /** A total in [0, n] over n > 0 items has its mean in [0, 1]. */
  lemma MeanBounded(total: real, n: nat)
    requires 0 < n && 0.0 <= total <= n as real
    ensures 0.0 <= total / n as real <= 1.0
  {
  }

  /**
    The perfect rate is the fraction of runs in which every check passed: it is 1 exactly
    when every run was perfect and 0 exactly when none was. The bootstrap rate is the same
    for completed conversations.
  */
  lemma RunRates(modelName: string, runs: seq<Run>, variant: string, prompts: Option<seq<string>>)
    requires |runs| > 0
    ensures var r := Aggregate(modelName, runs, variant, prompts);
      && 0.0 <= r.perfectRate <= 1.0 && 0.0 <= r.bootstrapRate <= 1.0
      && (r.perfectRate == 1.0 <==> forall i :: 0 <= i < |runs| ==> runs[i].1.allPassed)
      && (r.perfectRate == 0.0 <==> forall i :: 0 <= i < |runs| ==> !runs[i].1.allPassed)
      && (r.bootstrapRate == 1.0 <==> forall i :: 0 <= i < |runs| ==> runs[i].0.bootstrapCompleted)
      && (r.bootstrapRate == 0.0 <==> forall i :: 0 <= i < |runs| ==> !runs[i].0.bootstrapCompleted)
  {
    var n := |runs| as real;
    var p := CountWhere(runs, Perfect);
    var c := CountWhere(runs, Completed);
    FractionOne(p, |runs|);
    FractionOne(c, |runs|);
  }

  /** No more than one check in the list has this filename. */
  predicate AtMostOne(checks: seq<FileCheck>, filename: string) {
    forall i, j :: 0 <= i < j < |checks| && checks[i].filename == filename ==> checks[j].filename != filename
  }

  lemma {:induction false} PassedForNone(checks: seq<FileCheck>, filename: string)
    requires forall i :: 0 <= i < |checks| ==> checks[i].filename != filename
    ensures PassedFor(checks, filename) == 0
    decreases |checks|
  {
    if checks != [] {
      PassedForNone(checks[..|checks| - 1], filename);
    }
  }

  /** A run with at most one check per filename contributes at most one pass. */
  lemma {:induction false} PassedForAtMostOne(checks: seq<FileCheck>, filename: string)
    requires AtMostOne(checks, filename)
    ensures PassedFor(checks, filename) <= 1
    decreases |checks|
  {
    if checks != [] {
      var init := checks[..|checks| - 1];
      if checks[|checks| - 1].filename == filename {
        PassedForNone(init, filename);
      } else {
        PassedForAtMostOne(init, filename);
      }
    }
  }

  lemma {:induction false} PassedOverBounded(runs: seq<Run>, filename: string)
    requires forall i :: 0 <= i < |runs| ==> AtMostOne(runs[i].1.checks, filename)
    ensures PassedOver(runs, filename) <= |runs|
    decreases |runs|
  {
    if runs != [] {
      PassedOverBounded(runs[..|runs| - 1], filename);
      PassedForAtMostOne(runs[|runs| - 1].1.checks, filename);
    }
  }

  /** When every run has at most one check per file, each per-check rate lies in [0, 1]. */
  lemma CheckRatesBounded(modelName: string, runs: seq<Run>, variant: string, prompts: Option<seq<string>>)
    requires |runs| > 0
    requires forall i, f :: 0 <= i < |runs| ==> AtMostOne(runs[i].1.checks, f)
    ensures var r := Aggregate(modelName, runs, variant, prompts);
      && 0.0 <= r.bootstrapMdRate <= 1.0 && 0.0 <= r.identityRate <= 1.0
      && 0.0 <= r.userRate <= 1.0 && 0.0 <= r.soulRate <= 1.0
  {
    PassedOverBounded(runs, "BOOTSTRAP.md");
    PassedOverBounded(runs, "IDENTITY.md");
    PassedOverBounded(runs, "USER.md");
    PassedOverBounded(runs, "SOUL.md");
    FractionOne(PassedOver(runs, "BOOTSTRAP.md"), |runs|);
    FractionOne(PassedOver(runs, "IDENTITY.md"), |runs|);
    FractionOne(PassedOver(runs, "USER.md"), |runs|);
    FractionOne(PassedOver(runs, "SOUL.md"), |runs|);
  }

  /** The verdict of a workspace always holds the four checks, one per file. */
  lemma VerdictOneCheckPerFile(ws: Workspace, modelName: string, identityOrder: seq<string>,
                               userOrder: seq<string>, filename: string)
    ensures AtMostOne(Summarise(modelName, [BootstrapDeletedCheck(ws.bootstrap), IdentityCheck(ws.identity, identityOrder),
                                            UserCheck(ws.user, userOrder), SoulCheck(ws.soul)]).checks, filename)
  {
    var checks := [BootstrapDeletedCheck(ws.bootstrap), IdentityCheck(ws.identity, identityOrder),
                   UserCheck(ws.user, userOrder), SoulCheck(ws.soul)];
    assert checks[1].filename == "IDENTITY.md" && checks[2].filename == "USER.md";
    var r := Summarise(modelName, checks);
    assert r.checks == checks;
    var names := [checks[0].filename, checks[1].filename, checks[2].filename, checks[3].filename];
    assert names == ["BOOTSTRAP.md", "IDENTITY.md", "USER.md", "SOUL.md"];
    hide *;
    WorkspaceNamesDistinct();
    assert forall i :: 0 <= i < 4 ==> checks[i].filename == names[i];
  }

  /** The four workspace files have pairwise different names. */
  lemma WorkspaceNamesDistinct()
    ensures var names := ["BOOTSTRAP.md", "IDENTITY.md", "USER.md", "SOUL.md"];
      forall i, j :: 0 <= i < j < 4 ==> names[i] != names[j]
  {
    var names := ["BOOTSTRAP.md", "IDENTITY.md", "USER.md", "SOUL.md"];
    assert names[0][0] == 'B' && names[1][0] == 'I' && names[2][0] == 'U' && names[3][0] == 'S';
  }

  /** The variant column decision of the results table: some variant other than the default. */
  predicate HasVariants(results: seq<AggregatedResult>) {
    var names := set i | 0 <= i < |results| :: results[i].promptVariant;
    |names| > 1 || (|names| == 1 && names != {"default"})
  }

  /** The variant column is shown exactly when some result ran a variant other than "default". */
  lemma HasVariantsIff(results: seq<AggregatedResult>)
    ensures HasVariants(results) <==> exists i :: 0 <= i < |results| && results[i].promptVariant != "default"
  {
    var names := set i | 0 <= i < |results| :: results[i].promptVariant;
    if exists i :: 0 <= i < |results| && results[i].promptVariant != "default" {
      var i :| 0 <= i < |results| && results[i].promptVariant != "default";
      assert results[i].promptVariant in names;
      if |names| <= 1 {
        forall x | x in names ensures x == results[i].promptVariant {
          if x != results[i].promptVariant {
            TwoMembers(names, x, results[i].promptVariant);
          }
        }
        assert names == {results[i].promptVariant};
      }
    } else {
      assert names <= {"default"};
      if names != {} {
        assert "default" in names;
        assert names == {"default"};
      }
    }
  }

  /** A set with two different members has at least two elements. */
  lemma TwoMembers<T>(s: set<T>, x: T, y: T)
    requires x in s && y in s && x != y
    ensures |s| >= 2
  {
    var rest := s - {y};
    assert x in rest;
    assert s == rest + {y};
  }

  /** A rate cell of the table: a tick for every run, a cross for none, a percentage otherwise. */
  datatype RateCell = AllRuns | NoRuns | Percent(rate: real)

  function RateMark(r: real): (c: RateCell)
    ensures c == AllRuns <==> r == 1.0
    ensures c == NoRuns <==> r == 0.0
    ensures c.Percent? ==> c.rate == r
  {
    if r == 1.0 then AllRuns else if r == 0.0 then NoRuns else Percent(r)
  }

  /** A model's perfect cell is a tick exactly when every one of its runs passed all checks. */
  lemma PerfectTickIff(modelName: string, runs: seq<Run>, variant: string, prompts: Option<seq<string>>)
    requires |runs| > 0
    ensures RateMark(Aggregate(modelName, runs, variant, prompts).perfectRate) == AllRuns
            <==> forall i :: 0 <= i < |runs| ==> runs[i].1.allPassed
  {
    RunRates(modelName, runs, variant, prompts);
  }

  /** The runs note of the table header: the common run count, or "variable" when there is none. */
  function RunsNote(results: seq<AggregatedResult>): (note: string)
    ensures results != [] && (forall i :: 0 <= i < |results| ==> results[i].numRuns == results[0].numRuns)
            ==> note == NatToString(results[0].numRuns) + " runs per model"
    ensures (exists i, j :: 0 <= i < |results| && 0 <= j < |results| && results[i].numRuns != results[j].numRuns)
            ==> note == "variable runs per model"
    ensures results == [] ==> note == "variable runs per model"
  {
    var counts := set i | 0 <= i < |results| :: results[i].numRuns;
    RunCountsShape(results, counts);
    if |counts| == 1 then NatToString(results[0].numRuns) + " runs per model"
    else "variable runs per model"
  }

  /** The set of run counts has one element exactly when the results agree on a count. */
  lemma RunCountsShape(results: seq<AggregatedResult>, counts: set<nat>)
    requires counts == set i | 0 <= i < |results| :: results[i].numRuns
    ensures |counts| == 1 <==> results != [] && forall i :: 0 <= i < |results| ==> results[i].numRuns == results[0].numRuns
  {
    if results != [] {
      assert results[0].numRuns in counts;
      if forall i :: 0 <= i < |results| ==> results[i].numRuns == results[0].numRuns {
        assert counts == {results[0].numRuns};
      } else {
        var i :| 0 <= i < |results| && results[i].numRuns != results[0].numRuns;
        assert results[i].numRuns in counts;
        TwoMembers(counts, results[i].numRuns, results[0].numRuns);
      }
    }
  }

  /** The number of models whose every run was perfect, for the table's legend. */
  function PerfectModels(results: seq<AggregatedResult>): (n: nat)
    ensures n <= |results|
    ensures n == |results| <==> forall i :: 0 <= i < |results| ==> results[i].perfectRate == 1.0
  {
    CountWhere(results, (ag: AggregatedResult) => ag.perfectRate == 1.0)
  }

  const ResultsStart := "<!-- BENCHMARK RESULTS -->"
  const ResultsEnd := "<!-- /BENCHMARK RESULTS -->"

  /**
    Every leftmost start-to-end span, the end being the first one after its start, replaced
    by `rep`; the scan resumes after each span.
  */
  function Splice(s: string, rep: string): string
    decreases |s|
  {
    match FindFrom(s, ResultsStart, 0)
    case None => s
    case Some(p) =>
      match FindFrom(s, ResultsEnd, p + |ResultsStart|)
      case None => s
      case Some(q) => s[..p] + rep + Splice(s[q + |ResultsEnd|..], rep)
  }

  /** Without a start marker the text stays as it is. */
  lemma SpliceNoStart(s: string, rep: string)
    requires forall k: nat :: !OccursAt(s, ResultsStart, k)
    ensures Splice(s, rep) == s
  {
  }

  /** With no end marker after the first start marker the text stays as it is. */
  lemma SpliceUnclosed(s: string, rep: string, p: nat)
    requires OccursAt(s, ResultsStart, p) && forall k :: 0 <= k < p ==> !OccursAt(s, ResultsStart, k)
    requires forall k: nat :: p + |ResultsStart| <= k ==> !OccursAt(s, ResultsEnd, k)
    ensures Splice(s, rep) == s
  {
    var f := FindFrom(s, ResultsStart, 0);
    assert f == Some(p);
  }

  /**
    Text before the first span is kept, the span from the first start marker to the first end
    marker after it becomes `rep`, and the text after the span is spliced the same way.
  */
  lemma SpliceBlock(s: string, rep: string, p: nat, q: nat)
    requires OccursAt(s, ResultsStart, p) && forall k :: 0 <= k < p ==> !OccursAt(s, ResultsStart, k)
    requires p + |ResultsStart| <= q && OccursAt(s, ResultsEnd, q)
    requires forall k :: p + |ResultsStart| <= k < q ==> !OccursAt(s, ResultsEnd, k)
    ensures q + |ResultsEnd| <= |s|
    ensures Splice(s, rep) == s[..p] + rep + Splice(s[q + |ResultsEnd|..], rep)
  {
    hide FindFrom;
    var f := FindFrom(s, ResultsStart, 0);
    assert f == Some(p);
    var g := FindFrom(s, ResultsEnd, p + |ResultsStart|);
    assert g == Some(q);
  }

  /** The README outcome: whether it was written, and its content afterwards. */
  datatype ReadmeUpdate = ReadmeUpdate(updated: bool, content: Option<string>)

  /**
    `update_readme_results` on the README's content (`None` when the file does not exist)
    and the generated table. `re.sub` reads its replacement as a template, so the block is
    inserted verbatim only when the table holds no backslash.
  */
  function UpdateReadme(readme: Option<string>, table: string): (r: ReadmeUpdate)
    requires NoChar(table, '\\')
    ensures readme.None? ==> r == ReadmeUpdate(false, None)
    ensures readme.Some? && !(Contains(readme.value, ResultsStart) && Contains(readme.value, ResultsEnd))
            ==> r == ReadmeUpdate(false, readme)
    ensures readme.Some? && Contains(readme.value, ResultsStart) && Contains(readme.value, ResultsEnd)
            ==> r == ReadmeUpdate(true, Some(Splice(readme.value, ResultsStart + "\n" + table + "\n" + ResultsEnd)))
  {
    match readme
    case None => ReadmeUpdate(false, None)
    case Some(content) =>
      if !Contains(content, ResultsStart) || !Contains(content, ResultsEnd) then ReadmeUpdate(false, readme)
      else ReadmeUpdate(true, Some(Splice(content, ResultsStart + "\n" + table + "\n" + ResultsEnd)))
  }

  /**
    A README with a single results block is rewritten to the same surroundings with the
    block replaced by the markers around the new table.
  */
  lemma UpdateSingleBlock(s: string, table: string, p: nat, q: nat)
    requires OccursAt(s, ResultsStart, p) && forall k :: 0 <= k < p ==> !OccursAt(s, ResultsStart, k)
    requires p + |ResultsStart| <= q && OccursAt(s, ResultsEnd, q)
    requires forall k :: p + |ResultsStart| <= k < q ==> !OccursAt(s, ResultsEnd, k)
    requires forall k: nat :: q + |ResultsEnd| <= k ==> !OccursAt(s, ResultsStart, k)
    requires NoChar(table, '\\')
    ensures q + |ResultsEnd| <= |s|
    ensures UpdateReadme(Some(s), table)
            == ReadmeUpdate(true, Some(s[..p] + (ResultsStart + "\n" + table + "\n" + ResultsEnd) + s[q + |ResultsEnd|..]))
  {
    var rep := ResultsStart + "\n" + table + "\n" + ResultsEnd;
    SpliceBlock(s, rep, p, q);
    var rest := s[q + |ResultsEnd|..];
    SuffixAbsent(s, ResultsStart, q + |ResultsEnd|);
    SpliceNoStart(rest, rep);
    ContainsAt(s, ResultsStart, p);
    ContainsAt(s, ResultsEnd, q);
    hide Splice, Contains;
  }

  /** A text that does not occur from index `d` on does not occur in the suffix from `d`. */
  lemma SuffixAbsent(s: string, sub: string, d: nat)
    requires d <= |s|
    requires forall k: nat :: d <= k ==> !OccursAt(s, sub, k)
    ensures forall k: nat :: !OccursAt(s[d..], sub, k)
  {
    forall k: nat ensures !OccursAt(s[d..], sub, k) {
      if OccursAt(s[d..], sub, k) {
        assert s[d + k..d + k + |sub|] == s[d..][k..k + |sub|];
        assert OccursAt(s, sub, d + k);
      }
    }
  }
}
