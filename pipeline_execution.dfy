/**
 * The logic of the pipeline page, src/pages/PipelineExecution.tsx: the icons it attaches to
 * the catalog before starting a run, the per-step resource table and the metrics sampler
 * that reads it every 3000 ms, the overall-progress percentage and the condition under which
 * the "View Results" button shows.
 *
 * `Math.random()` is not modelled; each sample takes its four draws as a `Draws` value.
 */
module PipelineExecution {
  import opened PipelineTypes
  import opened PipelineData
  import opened UsePipelineExecution

  // ---------------------------------------------------------------------------
  // getStepIcon and handleStartPipeline

  /** The icon component of each known step, by name. */
  const IconMap: map<string, string> := map[
    "data-download" := "Download",
    "quality-control" := "Activity",
    "read-merging" := "GitMerge",
    "asv-inference" := "Zap",
    "taxonomic-classification" := "Database",
    "novelty-detection" := "Brain",
    "diversity-analysis" := "BarChart3"]

  /** `getStepIcon`: the mapped icon, `Activity` for an unknown id. */
  // Its partner is `IconsKeepCatalog`: the start handler's icon pass changes nothing but icons.
  function StepIcon(stepId: string): (icon: string)
    ensures stepId in IconMap ==> icon == IconMap[stepId]
    ensures stepId !in IconMap ==> icon == "Activity"
  {
    if stepId in IconMap then IconMap[stepId] else "Activity"
  }

  /** `pipelineStepsData.map(step => ({ ...step, icon: getStepIcon(step.id) }))`. */
  function WithIcons(steps: seq<Step>): (r: seq<Step>)
    ensures |r| == |steps|
    ensures forall i :: 0 <= i < |steps| ==> r[i] == steps[i].(icon := Some(StepIcon(steps[i].id)))
  {
    if steps == [] then [] else [steps[0].(icon := Some(StepIcon(steps[0].id)))] + WithIcons(steps[1..])
  }

  /**
   * The list handed to `startPipeline` is the catalog in its order with its ids and
   * durations; every catalog id has its own entry in the icon map, and only the quality
   * step shares its icon with the fallback.
   */
  lemma IconsKeepCatalog()
    ensures Ids(WithIcons(Catalog)) == CatalogIds
    ensures DurationsPositive(WithIcons(Catalog))
    ensures forall i :: 0 <= i < |Catalog| ==> Catalog[i].id in IconMap
    ensures forall i :: 0 <= i < |Catalog| ==> (StepIcon(Catalog[i].id) == "Activity" <==> i == 1)
  {
    CatalogIdsInOrder();
    CatalogDurationsPositive();
  }

  /** Starting the page's run with no advance pending satisfies the run invariant. */
  lemma CatalogStartEstablishesInv(s: RunState)
    requires s.pendingAdvances == []
    ensures Inv(StartState(s, WithIcons(Catalog)))
    ensures Ids(StartState(s, WithIcons(Catalog)).steps) == CatalogIds
  {
    IconsKeepCatalog();
    StartEstablishesInv(s, WithIcons(Catalog));
  }

  // ---------------------------------------------------------------------------
  // getStepResourcePattern

  /** The `patterns` record at a given step progress. */
  function Patterns(progress: real): map<string, SystemMetrics> {
    map[
      "data-download" := SystemMetrics(15.0 + progress * 0.1, 20.0 + progress * 0.15, 60.0 + progress * 0.3, 70.0 + progress * 0.2),
      "quality-control" := SystemMetrics(40.0 + progress * 0.4, 35.0 + progress * 0.25, 30.0 + progress * 0.2, 5.0),
      "read-merging" := SystemMetrics(25.0 + progress * 0.3, 45.0 + progress * 0.2, 20.0 + progress * 0.15, 2.0),
      "asv-inference" := SystemMetrics(80.0 + progress * 0.1, 70.0 + progress * 0.15, 15.0 + progress * 0.1, 1.0),
      "taxonomic-classification" := SystemMetrics(60.0 + progress * 0.2, 50.0 + progress * 0.2, 25.0 + progress * 0.15, 30.0 + progress * 0.1),
      "novelty-detection" := SystemMetrics(85.0 + progress * 0.1, 75.0 + progress * 0.1, 10.0 + progress * 0.05, 5.0),
      "diversity-analysis" := SystemMetrics(30.0 + progress * 0.2, 40.0 + progress * 0.15, 15.0 + progress * 0.1, 3.0)]
  }

  const DefaultPattern: SystemMetrics := SystemMetrics(20.0, 30.0, 10.0, 5.0)

  /** `getStepResourcePattern`: the table's entry, or the default for an id it lacks. */
  function ResourcePattern(stepId: string, progress: real): SystemMetrics {
    var patterns := Patterns(progress);
    if stepId in patterns then patterns[stepId] else DefaultPattern
  }

  /** The table has an entry for exactly the catalog's ids, the three eased ids among them. */
  lemma PatternKeysAreCatalogIds(progress: real)
    ensures forall id :: id in Patterns(progress) <==> id in CatalogIds
    ensures DataDownload in CatalogIds && AsvInference in CatalogIds && NoveltyDetection in CatalogIds
  {
  }

  /**
   * Every channel of every id is affine in the progress: its change between two progress
   * values is a fixed rate times the difference, the rate being that of the range [0, 100];
   * an id outside the table always gets the default.
   */
  lemma ResourcePatternAffine(stepId: string, p: real, q: real)
    ensures var a, b, lo, hi := ResourcePattern(stepId, p), ResourcePattern(stepId, q),
                                ResourcePattern(stepId, 0.0), ResourcePattern(stepId, 100.0);
      && b.cpu - a.cpu == (hi.cpu - lo.cpu) / 100.0 * (q - p)
      && b.memory - a.memory == (hi.memory - lo.memory) / 100.0 * (q - p)
      && b.disk - a.disk == (hi.disk - lo.disk) / 100.0 * (q - p)
      && b.network - a.network == (hi.network - lo.network) / 100.0 * (q - p)
    ensures stepId !in CatalogIds ==> ResourcePattern(stepId, p) == DefaultPattern
  {
  }

  /**
   * Over the whole range of a step's progress, novelty detection asks for more CPU than ASV
   * inference, which asks for more than any other step (or an unknown id), and the download
   * step uses more network than any other.
   */
  lemma ResourceOrdering(stepId: string, p: real)
    requires 0.0 <= p <= 100.0
    ensures ResourcePattern(NoveltyDetection, p).cpu > ResourcePattern(AsvInference, p).cpu
    ensures stepId != NoveltyDetection && stepId != AsvInference ==>
      ResourcePattern(stepId, p).cpu < ResourcePattern(AsvInference, p).cpu
    ensures stepId != DataDownload ==>
      ResourcePattern(stepId, p).network < ResourcePattern(DataDownload, p).network
  {
  }

  // ---------------------------------------------------------------------------
  // The metrics sampler

  /** The four `Math.random()` results one sample draws, in order. */
  datatype Draws = Draws(cpu: real, memory: real, disk: real, network: real)

  predicate ValidDraws(d: Draws) {
    0.0 <= d.cpu < 1.0 && 0.0 <= d.memory < 1.0 && 0.0 <= d.disk < 1.0 && 0.0 <= d.network < 1.0
  }

  /** `Math.max(lo, Math.min(hi, x))`. */
  function Clamp(lo: real, hi: real, x: real): (r: real)
    requires lo <= hi
    ensures lo <= r <= hi
    ensures lo <= x <= hi ==> r == x
    ensures x < lo ==> r == lo
    ensures x > hi ==> r == hi
  {
    var below := if hi < x then hi else x;
    if lo > below then lo else below
  }

  /** The baseline with the random offsets added, before clamping. */
  function Perturbed(base: SystemMetrics, d: Draws): SystemMetrics {
    SystemMetrics(
      base.cpu + (d.cpu - 0.5) * 10.0,
      base.memory + (d.memory - 0.5) * 5.0,
      base.disk + (d.disk - 0.5) * 20.0,
      base.network + (d.network - 0.5) * 15.0)
  }

  /** The metrics one interval tick sets: the clamped perturbed pattern while a step runs, idle readings otherwise. */
  function SampleMetrics(isRunning: bool, currentStep: Option<Step>, stepProgress: real, d: Draws): (m: SystemMetrics)
    ensures isRunning && currentStep.Some? ==>
      && 5.0 <= m.cpu <= 95.0 && 10.0 <= m.memory <= 90.0
      && 0.0 <= m.disk <= 100.0 && 0.0 <= m.network <= 100.0
    ensures !(isRunning && currentStep.Some?) && ValidDraws(d) ==>
      && 5.0 <= m.cpu < 15.0 && 15.0 <= m.memory < 25.0
      && 0.0 <= m.disk < 5.0 && 0.0 <= m.network < 5.0
  {
    if isRunning && currentStep.Some? then
      var raw := Perturbed(ResourcePattern(currentStep.value.id, stepProgress), d);
      SystemMetrics(Clamp(5.0, 95.0, raw.cpu), Clamp(10.0, 90.0, raw.memory),
                    Clamp(0.0, 100.0, raw.disk), Clamp(0.0, 100.0, raw.network))
    else
      SystemMetrics(5.0 + d.cpu * 10.0, 15.0 + d.memory * 10.0, d.disk * 5.0, d.network * 5.0)
  }

  /** With draws in [0, 1), each offset stays within its band: 5, 2.5, 10 and 7.5 either way. */
  lemma PerturbationBands(base: SystemMetrics, d: Draws)
    requires ValidDraws(d)
    ensures var raw := Perturbed(base, d);
      && base.cpu - 5.0 <= raw.cpu < base.cpu + 5.0
      && base.memory - 2.5 <= raw.memory < base.memory + 2.5
      && base.disk - 10.0 <= raw.disk < base.disk + 10.0
      && base.network - 7.5 <= raw.network < base.network + 7.5
  {
  }

  /** Clamping is non-expansive: two values that are close stay at least as close. */
  lemma ClampNear(lo: real, hi: real, x: real, y: real, e: real)
    requires lo <= hi && x - e <= y <= x + e
    ensures Clamp(lo, hi, x) - e <= Clamp(lo, hi, y) <= Clamp(lo, hi, x) + e
  {
  }

  /**
   * A running sample lies within the band of its channel around the clamped pattern of the
   * current step at the current progress.
   */
  lemma RunningSampleNearPattern(step: Step, stepProgress: real, d: Draws)
    requires ValidDraws(d)
    ensures var m, base := SampleMetrics(true, Some(step), stepProgress, d), ResourcePattern(step.id, stepProgress);
      && Clamp(5.0, 95.0, base.cpu) - 5.0 <= m.cpu <= Clamp(5.0, 95.0, base.cpu) + 5.0
      && Clamp(10.0, 90.0, base.memory) - 2.5 <= m.memory <= Clamp(10.0, 90.0, base.memory) + 2.5
      && Clamp(0.0, 100.0, base.disk) - 10.0 <= m.disk <= Clamp(0.0, 100.0, base.disk) + 10.0
      && Clamp(0.0, 100.0, base.network) - 7.5 <= m.network <= Clamp(0.0, 100.0, base.network) + 7.5
  {
    var base := ResourcePattern(step.id, stepProgress);
    var raw := Perturbed(base, d);
    PerturbationBands(base, d);
    ClampNear(5.0, 95.0, base.cpu, raw.cpu, 5.0);
    ClampNear(10.0, 90.0, base.memory, raw.memory, 2.5);
    ClampNear(0.0, 100.0, base.disk, raw.disk, 10.0);
    ClampNear(0.0, 100.0, base.network, raw.network, 7.5);
  }

  /** The idle branch reads neither the step nor its progress, and a stopped run is idle. */
  lemma IdleIgnoresStep(a: Option<Step>, b: Option<Step>, p: real, q: real, running: bool, d: Draws)
    requires !running || a.None?
    ensures SampleMetrics(running, a, p, d) == SampleMetrics(false, b, q, d)
  {
  }

  // ---------------------------------------------------------------------------
  // Overall progress and the View Results button

  /** `Math.round(x)` for a finite `x`: the nearest integer, halves rounded up. */
  function Round(x: real): (n: int)
    ensures n as real - 0.5 <= x < n as real + 0.5
  {
    (x + 0.5).Floor
  }

  /**
   * `Math.round(((currentStepIndex + stepProgress / 100) / steps.length) * 100)`; with no
   * steps JavaScript divides by zero and the label is not a number, here `None`.
   */
  function OverallPercent(index: nat, stepProgress: real, length: nat): (r: Option<int>)
    ensures r.None? <==> length == 0
    ensures r.Some? && index < length && 0.0 <= stepProgress <= 100.0 ==> 0 <= r.value <= 100
  {
    if length == 0 then None
    else
      var x := (index as real + stepProgress / 100.0) / length as real * 100.0;
      PercentBounds(index, stepProgress, length);
      Some(Round(x))
  }

  lemma PercentBounds(index: nat, stepProgress: real, length: nat)
    requires length > 0
    ensures index < length && 0.0 <= stepProgress <= 100.0 ==>
      0.0 <= (index as real + stepProgress / 100.0) / length as real * 100.0 <= 100.0
  {
    if index < length && 0.0 <= stepProgress <= 100.0 {
      var n := index as real + stepProgress / 100.0;
      assert 0.0 <= n <= length as real;
      assert n / length as real <= 1.0;
    }
  }

  /** A run starts at 0 %, and the last step at 100 % reads 100 %. */
  lemma OverallPercentEnds(length: nat)
    requires length > 0
    ensures OverallPercent(0, 0.0, length) == Some(0)
    ensures OverallPercent(length - 1, 100.0, length) == Some(100)
  {
    assert (0 as real + 0.0 / 100.0) / length as real * 100.0 == 0.0;
    assert ((length - 1) as real + 100.0 / 100.0) / length as real * 100.0 == 100.0;
  }

  /** The button shows when the run is complete, or when it is idle on the last of some steps. */
  predicate ShowViewResults(s: RunState) {
    s.IsCompleted() || (!s.isRunning && s.currentStepIndex == |s.steps| - 1 && |s.steps| > 0)
  }

  /**
   * While a well-formed run is on a step before the last, the button is hidden, running or
   * not; on the last step it shows once the run stops, completed or not, and in particular
   * after the last advance timeout.
   */
  lemma ViewResultsWhen(s: RunState)
    requires Inv(s)
    ensures s.currentStepIndex < |s.steps| - 1 ==> !ShowViewResults(s) && !ShowViewResults(StopState(s))
    ensures |s.steps| > 0 && s.currentStepIndex == |s.steps| - 1 ==> ShowViewResults(StopState(s))
    ensures |s.steps| > 0 && s.currentStepIndex == |s.steps| - 1 && s.pendingAdvances != [] ==>
      ShowViewResults(AdvanceState(s))
  {
    if s.currentStepIndex < |s.steps| - 1 {
      NotCompletedBeforeLastStep(s);
      StopPreservesInv(s);
      NotCompletedBeforeLastStep(StopState(s));
    }
  }

  // ---------------------------------------------------------------------------
  // The page

  class PipelineExecutionPage {
    var executionStarted: bool
    var systemMetrics: SystemMetrics
    const run: PipelineRun

    /** The page's initial state and its own simulator. */
    constructor()
      ensures !executionStarted && systemMetrics == SystemMetrics(0.0, 0.0, 0.0, 0.0)
      ensures fresh(run) && run.State() == Initial
    {
      executionStarted := false;
      systemMetrics := SystemMetrics(0.0, 0.0, 0.0, 0.0);
      run := new PipelineRun();
    }

    /** `handleStartPipeline`: the catalog with icons goes to `startPipeline`. */
    method HandleStartPipeline()
      modifies this, run
      ensures executionStarted && systemMetrics == old(systemMetrics)
      ensures run.State() == StartState(old(run.State()), WithIcons(Catalog))
      ensures old(run.pendingAdvances) == [] ==> Inv(run.State()) && Ids(run.steps) == CatalogIds
    {
      executionStarted := true;
      if run.pendingAdvances == [] {
        CatalogStartEstablishesInv(run.State());
      }
      run.StartPipeline(WithIcons(Catalog));
    }

    /** One fire of the 3000 ms metrics interval, with its four draws. */
    method RefreshMetrics(d: Draws)
      modifies this
      ensures systemMetrics == SampleMetrics(run.isRunning, run.CurrentStep(), run.stepProgress, d)
      ensures executionStarted == old(executionStarted)
    {
      systemMetrics := SampleMetrics(run.isRunning, run.CurrentStep(), run.stepProgress, d);
    }
  }
}
