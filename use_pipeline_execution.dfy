/**
 * The pipeline-run simulator of src/hooks/usePipelineExecution.ts.
 *
 * The hook keeps six pieces of state and changes them from four callbacks: `startPipeline`,
 * the 500 ms progress tick, the 2000 ms advance timeout that a completing tick schedules,
 * and the 2000 ms log-reveal tick; `stopPipeline` clears `isRunning`. The React effects re-run
 * on every state change, so each callback is one atomic update of the whole state.
 *
 * `RunState` is that state as a value and the functions `StartState`, `TickState`,
 * `AdvanceState`, `LogTickState` and `StopState` say what each callback does to it; the class
 * `PipelineRun` holds the same state in mutable fields and its methods are proved to
 * perform exactly those updates. The lemmas in between are the simulator's promises.
 *
 * Advance timeouts still waiting to fire are kept in `pendingAdvances`, oldest first. Each
 * one remembers the step index and the list length that its closure captured. Neither stop
 * nor start cancels one.
 */
module UsePipelineExecution {
  import opened PipelineTypes

  /** A scheduled advance timeout with the index and length its closure captured. */
  datatype PendingAdvance = PendingAdvance(index: nat, length: nat)

  datatype RunState = RunState(
    steps: seq<Step>,
    currentStepIndex: nat,
    isRunning: bool,
    stepProgress: real,
    currentLogIndex: nat,
    forceCompleted: bool,
    pendingAdvances: seq<PendingAdvance>)
  {
    /** `steps.every(step => step.status === 'completed') || forceCompleted`. */
    predicate IsCompleted() {
      (forall i :: 0 <= i < |steps| ==> steps[i].status == Completed) || forceCompleted
    }

    /** `steps[currentStepIndex]`, undefined past the end. */
    // Its partner is `CurrentStepDefined`: on a well-formed run it is never undefined.
    function CurrentStep(): (r: Option<Step>)
      ensures r.Some? <==> currentStepIndex < |steps|
      ensures r.Some? ==> r.value == steps[currentStepIndex]
    {
      if currentStepIndex < |steps| then Some(steps[currentStepIndex]) else None
    }
  }

  /** The hook's state before any start: no steps, nothing running. */
  const Initial: RunState := RunState([], 0, false, 0.0, 0, false, [])

  // ---------------------------------------------------------------------------
  // startPipeline and stopPipeline

  /** One element of `initialSteps.map(step => ({ ...step, status: 'pending', progress: 0 }))`. */
  function ResetStep(step: Step): Step {
    step.(status := Pending, progress := 0.0)
  }

  /** The `map` over the whole list: same length and order, each step reset, nothing else touched. */
  function ResetAll(steps: seq<Step>): (r: seq<Step>)
    ensures |r| == |steps|
    ensures forall i :: 0 <= i < |steps| ==> r[i] == steps[i].(status := Pending, progress := 0.0)
  {
    if steps == [] then [] else [ResetStep(steps[0])] + ResetAll(steps[1..])
  }

  /** `startPipeline(initialSteps)`: a fresh run; advance timeouts already scheduled stay scheduled. */
  function StartState(s: RunState, initialSteps: seq<Step>): RunState {
    RunState(ResetAll(initialSteps), 0, true, 0.0, 0, false, s.pendingAdvances)
  }

  /** `stopPipeline()`: only `isRunning` changes. */
  function StopState(s: RunState): RunState {
    s.(isRunning := false)
  }

  // ---------------------------------------------------------------------------
  // The 500 ms progress tick

  const DataDownload: string := "data-download"
  const AsvInference: string := "asv-inference"
  const NoveltyDetection: string := "novelty-detection"

  /** `100 / (duration * 3)`. */
  function BaseIncrement(duration: real): real
    requires duration > 0.0
  {
    100.0 / (duration * 3.0)
  }

  /**
   * The eased increment of one tick, each threshold tested on the progress before the tick.
   * It is always positive, between half and one and a half times the base increment, and
   * exactly the base increment for any step without its own easing.
   */
  function Increment(id: string, duration: real, prev: real): (inc: real)
    requires duration > 0.0
    ensures inc > 0.0
    ensures BaseIncrement(duration) * 0.5 <= inc <= BaseIncrement(duration) * 1.5
    ensures id != DataDownload && id != AsvInference && id != NoveltyDetection ==> inc == BaseIncrement(duration)
  {
    var base := BaseIncrement(duration);
    if id == DataDownload then (if prev < 70.0 then base * 1.5 else base * 0.5)
    else if id == AsvInference then (if prev < 30.0 then base * 0.7 else base * 1.2)
    else if id == NoveltyDetection then base * 0.8
    else base
  }

  const Milestones: seq<real> := [0.0, 25.0, 50.0, 75.0, 100.0]

  /** `ms.findIndex(m => p < m)`: the first milestone above `p`, or -1 when there is none. */
  function FindIndexAbove(ms: seq<real>, p: real): (k: int)
    ensures -1 <= k < |ms|
    ensures k == -1 <==> forall j :: 0 <= j < |ms| ==> ms[j] <= p
    ensures k >= 0 ==> p < ms[k] && forall j :: 0 <= j < k ==> ms[j] <= p
  {
    if ms == [] then -1
    else if p < ms[0] then 0
    else
      var k := FindIndexAbove(ms[1..], p);
      if k == -1 then -1 else k + 1
  }

  /** Where `p` falls among the milestones 0, 25, 50, 75 and 100. */
  lemma MilestoneOf(p: real)
    ensures FindIndexAbove(Milestones, p)
      == if p < 0.0 then 0 else if p < 25.0 then 1 else if p < 50.0 then 2
         else if p < 75.0 then 3 else if p < 100.0 then 4 else -1
  {
    var k := FindIndexAbove(Milestones, p);
    assert Milestones[0] == 0.0 && Milestones[1] == 25.0 && Milestones[2] == 50.0;
    assert Milestones[3] == 75.0 && Milestones[4] == 100.0;
    if p < 0.0 {
      assert k != -1 && p < Milestones[k];
    } else if p < 25.0 {
      assert Milestones[0] <= p && p < Milestones[1];
    } else if p < 50.0 {
      assert Milestones[1] <= p && p < Milestones[2];
    } else if p < 75.0 {
      assert Milestones[2] <= p && p < Milestones[3];
    } else if p < 100.0 {
      assert Milestones[3] <= p && p < Milestones[4];
    }
  }

  /** `Math.max(0, Math.min(i, n - 1))`. */
  function SafeIndex(i: int, n: int): int {
    if i < n - 1 then (if i < 0 then 0 else i) else (if n - 1 < 0 then 0 else n - 1)
  }

  /**
   * The index of the detail shown at progress `p` for a step with `n` details: the quarter
   * of [0,100) that `p` lies in, the last detail from 100 on, always clamped into the details.
   */
  function MessageIndex(p: real, n: int): (k: int)
    ensures n > 0 ==> 0 <= k < n
    ensures n <= 0 ==> k == 0
    ensures p < 25.0 ==> k == 0
    ensures 25.0 <= p < 50.0 ==> k == SafeIndex(1, n)
    ensures 50.0 <= p < 75.0 ==> k == SafeIndex(2, n)
    ensures 75.0 <= p < 100.0 ==> k == SafeIndex(3, n)
    ensures 100.0 <= p ==> k == SafeIndex(n - 1, n)
  {
    var milestone := FindIndexAbove(Milestones, p);
    MilestoneOf(p);
    var messageIndex := if milestone == -1 then n - 1 else milestone - 1;
    SafeIndex(messageIndex, n)
  }

  /** The pending current step is marked running with its first detail as message. */
  function Activate(step: Step): Step {
    step.(status := Running, currentMessage := DetailAt(step.details, 0))
  }

  /** The step after a tick that brought it to `p`. */
  function Moved(step: Step, p: real): Step {
    step.(progress := p, currentMessage := DetailAt(step.details, MessageIndex(p, |step.details|)))
  }

  /** The step once it reached 100: completed, progress 100, its last detail as message. */
  function Finished(step: Step): Step {
    step.(status := Completed, progress := 100.0, currentMessage := DetailAt(step.details, |step.details| - 1))
  }

  /** The tick does anything only while running on a current step that is not completed. */
  predicate Productive(s: RunState) {
    s.isRunning && |s.steps| != 0 && s.currentStepIndex < |s.steps|
    && s.steps[s.currentStepIndex].status != Completed
  }

  /** The source does not guard the division by the duration; the model asks for it to be positive. */
  predicate CanTick(s: RunState) {
    s.currentStepIndex < |s.steps| ==> s.steps[s.currentStepIndex].duration > 0.0
  }

  /** The progress that the next tick computes, before it is capped at 100. */
  function NextProgress(s: RunState): real
    requires CanTick(s) && s.currentStepIndex < |s.steps|
  {
    var cur := s.steps[s.currentStepIndex];
    s.stepProgress + Increment(cur.id, cur.duration, s.stepProgress)
  }

  /** One progress tick (the effect body followed by one interval callback). */
  function TickState(s: RunState): RunState
    requires CanTick(s)
  {
    if !Productive(s) then s
    else
      var i := s.currentStepIndex;
      var cur := s.steps[i];
      var started := if cur.status == Pending then Activate(cur) else cur;
      var newProgress := NextProgress(s);
      var moved := Moved(started, newProgress);
      if newProgress >= 100.0 then
        s.(steps := s.steps[i := Finished(moved)],
           stepProgress := 100.0,
           pendingAdvances := s.pendingAdvances + [PendingAdvance(i, |s.steps|)])
      else
        s.(steps := s.steps[i := moved], stepProgress := newProgress)
  }

  // ---------------------------------------------------------------------------
  // The 2000 ms advance timeout

  /** The oldest scheduled advance fires, branching on the index and length it captured. */
  function AdvanceState(s: RunState): RunState
    requires s.pendingAdvances != []
  {
    var a := s.pendingAdvances[0];
    var rest := s.pendingAdvances[1..];
    if a.index < a.length - 1 then
      s.(currentStepIndex := s.currentStepIndex + 1, stepProgress := 0.0, currentLogIndex := 0, pendingAdvances := rest)
    else
      s.(isRunning := false, stepProgress := 100.0, forceCompleted := true, pendingAdvances := rest)
  }

  // ---------------------------------------------------------------------------
  // The 2000 ms log-reveal tick

  /** `Math.min(Math.floor((stepProgress / 100) * logs.length), logs.length - 1)`. */
  function LogTarget(progress: real, logCount: nat): int {
    var progressBased := (progress / 100.0 * logCount as real).Floor;
    if progressBased < logCount - 1 then progressBased else logCount - 1
  }

  /** Whether the log-reveal interval exists: running, on a current step whose status is running. */
  predicate LogsActive(s: RunState) {
    s.isRunning && |s.steps| != 0 && s.currentStepIndex < |s.steps|
    && s.steps[s.currentStepIndex].status == Running
  }

  function LogTickState(s: RunState): RunState {
    if !LogsActive(s) then s
    else if LogTarget(s.stepProgress, |s.steps[s.currentStepIndex].logs|) > s.currentLogIndex then
      s.(currentLogIndex := s.currentLogIndex + 1)
    else s
  }

  // ---------------------------------------------------------------------------
  // The invariant of a run

  predicate DurationsPositive(steps: seq<Step>) {
    forall i :: 0 <= i < |steps| ==> steps[i].duration > 0.0
  }

  /** The log cursor stays at 0, or within the logs and at most what the progress allows. */
  predicate LogCursorOk(cursor: nat, progress: real, logCount: nat) {
    cursor == 0 || (cursor < logCount && cursor <= (progress / 100.0 * logCount as real).Floor)
  }

  /** What a run started with no advance pending keeps true for a non-empty step list. */
  predicate StepsInv(s: RunState)
    requires |s.steps| > 0
  {
    var i := s.currentStepIndex;
    i < |s.steps|
    && (forall j :: 0 <= j < i ==> s.steps[j].status == Completed && s.steps[j].progress == 100.0)
    && (forall j :: i < j < |s.steps| ==> s.steps[j].status == Pending && s.steps[j].progress == 0.0)
    && s.steps[i].progress == s.stepProgress
    && LogCursorOk(s.currentLogIndex, s.stepProgress, |s.steps[i].logs|)
    && match s.steps[i].status {
         case Pending => s.stepProgress == 0.0 && !s.forceCompleted && s.pendingAdvances == []
         case Running => s.stepProgress < 100.0 && !s.forceCompleted && s.pendingAdvances == []
         case Completed =>
           s.stepProgress == 100.0
           && ((!s.forceCompleted && s.pendingAdvances == [PendingAdvance(i, |s.steps|)])
               || (s.forceCompleted && s.pendingAdvances == [] && !s.isRunning && i == |s.steps| - 1))
         case Error => false
       }
  }

  predicate Inv(s: RunState) {
    DurationsPositive(s.steps)
    && 0.0 <= s.stepProgress <= 100.0
    && (|s.steps| == 0 ==>
          s.currentStepIndex == 0 && s.stepProgress == 0.0 && s.currentLogIndex == 0
          && !s.forceCompleted && s.pendingAdvances == [])
    && (|s.steps| > 0 ==> StepsInv(s))
  }

  // ---------------------------------------------------------------------------
  // Arithmetic helpers

  lemma FloorMono(x: real, y: real)
    requires x <= y
    ensures x.Floor <= y.Floor
  {
    assert x.Floor as real <= x;
    assert y < y.Floor as real + 1.0;
  }

  lemma ScaledFloorMono(p: real, q: real, n: nat)
    requires p <= q
    ensures (p / 100.0 * n as real).Floor <= (q / 100.0 * n as real).Floor
  {
    assert p / 100.0 * n as real <= q / 100.0 * n as real;
    FloorMono(p / 100.0 * n as real, q / 100.0 * n as real);
  }

  lemma LogCursorGrows(cursor: nat, p: real, q: real, n: nat)
    requires LogCursorOk(cursor, p, n) && p <= q
    ensures LogCursorOk(cursor, q, n)
  {
    ScaledFloorMono(p, q, n);
  }

  // ---------------------------------------------------------------------------
  // startPipeline and stopPipeline

  /** The run that start builds: every step pending at 0 in the given order, cursors at 0, running. */
  lemma StartResets(s: RunState, initialSteps: seq<Step>)
    ensures var t := StartState(s, initialSteps);
      && Ids(t.steps) == Ids(initialSteps)
      && (forall i :: 0 <= i < |initialSteps| ==>
            t.steps[i].status == Pending && t.steps[i].progress == 0.0
            && t.steps[i] == initialSteps[i].(status := t.steps[i].status, progress := t.steps[i].progress))
      && t.currentStepIndex == 0 && t.stepProgress == 0.0 && t.currentLogIndex == 0
      && t.isRunning && !t.forceCompleted
  {
  }

  /** Starting with no advance pending and positive durations establishes the invariant. */
  lemma StartEstablishesInv(s: RunState, initialSteps: seq<Step>)
    requires s.pendingAdvances == [] && DurationsPositive(initialSteps)
    ensures Inv(StartState(s, initialSteps))
  {
    var t := StartState(s, initialSteps);
    if |initialSteps| > 0 {
      assert t.steps[0].status == Pending;
      assert (0.0 / 100.0 * |t.steps[0].logs| as real).Floor == 0;
    }
  }

  /** With an empty list, start leaves the run "running" and already completed (`[].every` is true). */
  lemma StartEmpty(s: RunState)
    ensures StartState(s, []).isRunning && StartState(s, []).IsCompleted()
    ensures StartState(s, []).CurrentStep() == None
    ensures TickState(StartState(s, [])) == StartState(s, [])
    ensures LogTickState(StartState(s, [])) == StartState(s, [])
  {
  }

  lemma StopPreservesInv(s: RunState)
    requires Inv(s)
    ensures Inv(StopState(s)) && !StopState(s).isRunning
  {
  }

  /**
   * Stop does not cancel a scheduled advance: when the step that completed was not the last,
   * the advance still moves the stopped run to the next step.
   */
  lemma StopDoesNotCancelAdvance(s: RunState)
    requires Inv(s) && s.pendingAdvances != [] && s.currentStepIndex < |s.steps| - 1
    ensures AdvanceState(StopState(s)).currentStepIndex == s.currentStepIndex + 1
    ensures !AdvanceState(StopState(s)).isRunning
  {
  }

  /**
   * Start does not cancel one either: an advance left from a previous run whose step was not the
   * last moves the fresh run from step 0 to step 1 while step 0 is still pending.
   */
  lemma RestartKeepsStaleAdvance(s: RunState, initialSteps: seq<Step>)
    requires s.pendingAdvances != [] && s.pendingAdvances[0].index < s.pendingAdvances[0].length - 1
    requires |initialSteps| >= 2
    ensures var t := AdvanceState(StartState(s, initialSteps));
      t.currentStepIndex == 1 && t.steps[0].status == Pending && !Inv(t)
  {
  }

  // ---------------------------------------------------------------------------
  // The progress tick

  /** Not running, no steps, no current step, or a completed one: the tick changes nothing. */
  lemma TickIdle(s: RunState)
    requires CanTick(s)
    ensures !s.isRunning ==> TickState(s) == s
    ensures |s.steps| == 0 ==> TickState(s) == s
    ensures s.currentStepIndex >= |s.steps| ==> TickState(s) == s
    ensures s.currentStepIndex < |s.steps| && s.steps[s.currentStepIndex].status == Completed ==> TickState(s) == s
  {
  }

  /**
   * Only the current entry is rewritten; the index, the running flag, the log cursor and the
   * completion flag are untouched; progress never passes 100 and strictly grows from below 100.
   */
  lemma TickFrame(s: RunState)
    requires CanTick(s) && Productive(s)
    ensures var t := TickState(s);
      && |t.steps| == |s.steps|
      && (forall j :: 0 <= j < |s.steps| && j != s.currentStepIndex ==> t.steps[j] == s.steps[j])
      && t.currentStepIndex == s.currentStepIndex && t.isRunning == s.isRunning
      && t.currentLogIndex == s.currentLogIndex && t.forceCompleted == s.forceCompleted
      && t.stepProgress <= 100.0
      && (s.stepProgress < 100.0 ==> t.stepProgress > s.stepProgress)
  {
    var cur := s.steps[s.currentStepIndex];
    assert Increment(cur.id, cur.duration, s.stepProgress) > 0.0;
  }

  /**
   * The status and message the current step has after a tick: completed with progress 100 and
   * its last detail once the new progress reaches 100 (and an advance is scheduled), otherwise
   * running (a pending step is started) with the detail for its new progress. Every other field
   * of the entry is kept.
   */
  lemma TickCurrentStep(s: RunState)
    requires CanTick(s) && Productive(s)
    ensures var t := TickState(s);
      var i := s.currentStepIndex;
      var cur := s.steps[i];
      var p := NextProgress(s);
      && t.steps[i] == cur.(status := t.steps[i].status, progress := t.steps[i].progress,
                            currentMessage := t.steps[i].currentMessage)
      && (p >= 100.0 ==>
            t.steps[i].status == Completed && t.steps[i].progress == 100.0
            && t.steps[i].currentMessage == DetailAt(cur.details, |cur.details| - 1)
            && t.stepProgress == 100.0
            && t.pendingAdvances == s.pendingAdvances + [PendingAdvance(i, |s.steps|)])
      && (p < 100.0 ==>
            t.steps[i].status == (if cur.status == Pending then Running else cur.status)
            && t.steps[i].progress == p == t.stepProgress
            && t.steps[i].currentMessage == DetailAt(cur.details, MessageIndex(p, |cur.details|))
            && t.pendingAdvances == s.pendingAdvances)
  {
  }

  lemma TickPreservesInv(s: RunState)
    requires Inv(s)
    ensures CanTick(s) && Inv(TickState(s))
  {
    if Productive(s) {
      var t := TickState(s);
      var i := s.currentStepIndex;
      var cur := s.steps[i];
      TickFrame(s);
      TickCurrentStep(s);
      var p := NextProgress(s);
      if p >= 100.0 {
        assert t.steps[i].status == Completed;
        var n := |cur.logs|;
        assert (100.0 / 100.0 * n as real).Floor == n;
        assert LogCursorOk(s.currentLogIndex, 100.0, n) by {
          LogCursorGrows(s.currentLogIndex, s.stepProgress, 100.0, n);
        }
      } else {
        assert t.steps[i].status == Running;
        LogCursorGrows(s.currentLogIndex, s.stepProgress, p, |cur.logs|);
      }
      assert StepsInv(t);
    }
  }

  /**
   * The tick that completes the last step makes the run completed at once (every status is
   * completed), although `isRunning` only drops when the advance timeout fires.
   */
  lemma CompletedAfterLastTick(s: RunState)
    requires Inv(s) && Productive(s) && s.currentStepIndex == |s.steps| - 1
    requires NextProgress(s) >= 100.0
    ensures TickState(s).IsCompleted() && TickState(s).isRunning
  {
    var t := TickState(s);
    TickCurrentStep(s);
    TickFrame(s);
    forall j | 0 <= j < |t.steps| ensures t.steps[j].status == Completed {
      if j != s.currentStepIndex {
        assert t.steps[j] == s.steps[j];
      }
    }
  }

  /** Before the last step, the run is never completed. */
  lemma NotCompletedBeforeLastStep(s: RunState)
    requires Inv(s) && s.currentStepIndex < |s.steps| - 1
    ensures !s.IsCompleted()
  {
    assert s.steps[|s.steps| - 1].status == Pending;
  }

  /** On a well-formed run over a non-empty list, `currentStep` is always defined, and it is the only step that can be running. */
  lemma CurrentStepDefined(s: RunState)
    requires Inv(s) && |s.steps| > 0
    ensures s.CurrentStep().Some?
    ensures forall j :: 0 <= j < |s.steps| && s.steps[j].status == Running ==> s.CurrentStep() == Some(s.steps[j])
  {
  }

  /** At most one step is running. */
  lemma AtMostOneRunning(s: RunState, i: int, j: int)
    requires Inv(s)
    requires 0 <= i < |s.steps| && 0 <= j < |s.steps|
    requires s.steps[i].status == Running && s.steps[j].status == Running
    ensures i == j == s.currentStepIndex
  {
  }

  // ---------------------------------------------------------------------------
  // The advance timeout

  /**
   * After a completed step, the advance moves to the next step with progress and log cursor
   * reset to 0, or, after the last one, stops the run with progress 100 and `forceCompleted`.
   */
  lemma AdvanceSteps(s: RunState)
    requires Inv(s) && s.pendingAdvances != []
    ensures var t := AdvanceState(s);
      && s.steps[s.currentStepIndex].status == Completed && !s.forceCompleted
      && t.steps == s.steps
      && (s.currentStepIndex < |s.steps| - 1 ==>
            t.currentStepIndex == s.currentStepIndex + 1 && t.stepProgress == 0.0
            && t.currentLogIndex == 0 && t.isRunning == s.isRunning && !t.forceCompleted)
      && (s.currentStepIndex == |s.steps| - 1 ==>
            t.currentStepIndex == s.currentStepIndex && !t.isRunning
            && t.stepProgress == 100.0 && t.forceCompleted)
      && t.pendingAdvances == []
  {
  }

  lemma AdvancePreservesInv(s: RunState)
    requires Inv(s) && s.pendingAdvances != []
    ensures Inv(AdvanceState(s))
  {
    var t := AdvanceState(s);
    AdvanceSteps(s);
    if s.currentStepIndex < |s.steps| - 1 {
      var k := t.currentStepIndex;
      assert t.steps[k].status == Pending;
      assert StepsInv(t);
    }
  }

  // ---------------------------------------------------------------------------
  // The log-reveal tick

  /**
   * The log cursor moves by exactly one, and only while the current step is running and the
   * progress-based target exceeds it; it never moves back. Nothing else changes.
   */
  lemma LogTickSteps(s: RunState)
    ensures var t := LogTickState(s);
      && t == s.(currentLogIndex := t.currentLogIndex)
      && (t.currentLogIndex == s.currentLogIndex + 1 <==>
            LogsActive(s) && LogTarget(s.stepProgress, |s.steps[s.currentStepIndex].logs|) > s.currentLogIndex)
      && (t.currentLogIndex == s.currentLogIndex || t.currentLogIndex == s.currentLogIndex + 1)
  {
  }

  lemma LogTickPreservesInv(s: RunState)
    requires Inv(s)
    ensures Inv(LogTickState(s))
  {
    var t := LogTickState(s);
    if t != s {
      var n := |s.steps[s.currentStepIndex].logs|;
      assert t.currentLogIndex <= LogTarget(s.stepProgress, n);
      assert LogCursorOk(t.currentLogIndex, t.stepProgress, n);
    }
  }

  // ---------------------------------------------------------------------------
  // Completion

  /** Once completed, a run stays completed under every callback until the next start. */
  lemma CompletionIsClosed(s: RunState)
    requires s.IsCompleted()
    ensures s.pendingAdvances != [] ==> AdvanceState(s).IsCompleted()
    ensures LogTickState(s).IsCompleted() && StopState(s).IsCompleted()
    ensures CanTick(s) ==> TickState(s).IsCompleted()
  {
  }

  // ---------------------------------------------------------------------------
  // A one-step run of duration 1: three ticks of 100/3 complete it; the run is completed
  // before the advance fires, and the advance then stops it with `forceCompleted`.

  const SoloStep: Step := Step("x", "x", "", 1.0, None, Pending, 0.0, "terminal", ["a"], ["l1", "l2"], None, None)

  lemma SoloRun()
    ensures var s0 := StartState(Initial, [SoloStep]);
      var s1 := TickState(s0);
      var s2 := TickState(s1);
      var s3 := TickState(s2);
      && s1.steps[0].status == Running && s1.steps[0].currentMessage == Some("a")
      && s2.steps[0].status == Running && !s2.IsCompleted()
      && s3.steps[0].status == Completed && s3.stepProgress == 100.0
      && s3.isRunning && s3.IsCompleted()
      && s3.pendingAdvances == [PendingAdvance(0, 1)]
      && var s4 := AdvanceState(s3);
         !s4.isRunning && s4.forceCompleted && s4.currentStepIndex == 0
  {
    var s0 := StartState(Initial, [SoloStep]);
    assert s0.steps == [SoloStep.(status := Pending, progress := 0.0)];
    assert BaseIncrement(1.0) == 100.0 / 3.0;
    var s1 := TickState(s0);
    assert s1.stepProgress == 100.0 / 3.0;
    var s2 := TickState(s1);
    assert s2.stepProgress == 200.0 / 3.0;
    var s3 := TickState(s2);
    assert s3.stepProgress == 100.0;
  }

  // ---------------------------------------------------------------------------
  // The hook itself

  class PipelineRun {
    var steps: seq<Step>
    var currentStepIndex: nat
    var isRunning: bool
    var stepProgress: real
    var currentLogIndex: nat
    var forceCompleted: bool
    var pendingAdvances: seq<PendingAdvance>

    function State(): RunState
      reads this
    {
      RunState(steps, currentStepIndex, isRunning, stepProgress, currentLogIndex, forceCompleted, pendingAdvances)
    }

    /** The `useState` initial values. */
    constructor()
      ensures State() == Initial
      ensures IsCompleted()
    {
      steps, currentStepIndex, isRunning := [], 0, false;
      stepProgress, currentLogIndex, forceCompleted := 0.0, 0, false;
      pendingAdvances := [];
    }

    function IsCompleted(): bool
      reads this
    {
      State().IsCompleted()
    }

    function CurrentStep(): Option<Step>
      reads this
    {
      State().CurrentStep()
    }

    method StartPipeline(initialSteps: seq<Step>)
      modifies this
      ensures State() == StartState(old(State()), initialSteps)
      ensures old(pendingAdvances) == [] && DurationsPositive(initialSteps) ==> Inv(State())
    {
      if old(pendingAdvances) == [] && DurationsPositive(initialSteps) {
        StartEstablishesInv(State(), initialSteps);
      }
      steps := ResetAll(initialSteps);
      currentStepIndex := 0;
      stepProgress := 0.0;
      currentLogIndex := 0;
      isRunning := true;
      forceCompleted := false;
    }

    method StopPipeline()
      modifies this
      ensures State() == StopState(old(State()))
      ensures old(Inv(State())) ==> Inv(State())
    {
      if Inv(State()) { StopPreservesInv(State()); }
      isRunning := false;
    }

    /** One progress tick, following the setters of the effect body and the interval callback in order. */
    method Tick()
      requires CanTick(State())
      modifies this
      ensures State() == TickState(old(State()))
      ensures old(Inv(State())) ==> Inv(State())
    {
      ghost var before := State();
      if Inv(before) { TickPreservesInv(before); }
      if !isRunning || |steps| == 0 { return; }
      if currentStepIndex >= |steps| { return; }
      var current := steps[currentStepIndex];
      if current.status == Completed { return; }
      var started := current;
      if current.status == Pending {
        started := Activate(current);
        steps := steps[currentStepIndex := started];
      }
      var newProgress := stepProgress + Increment(current.id, current.duration, stepProgress);
      assert newProgress == NextProgress(before);
      var moved := Moved(started, newProgress);
      if newProgress >= 100.0 {
        steps := steps[currentStepIndex := Finished(moved)];
        pendingAdvances := pendingAdvances + [PendingAdvance(currentStepIndex, |steps|)];
        stepProgress := 100.0;
      } else {
        steps := steps[currentStepIndex := moved];
        stepProgress := newProgress;
      }
      assert steps == before.steps[currentStepIndex := steps[currentStepIndex]];
    }

    /** The oldest scheduled advance timeout fires. */
    method Advance()
      requires pendingAdvances != []
      modifies this
      ensures State() == AdvanceState(old(State()))
      ensures old(Inv(State())) ==> Inv(State())
    {
      if Inv(State()) { AdvancePreservesInv(State()); }
      var captured := pendingAdvances[0];
      pendingAdvances := pendingAdvances[1..];
      if captured.index < captured.length - 1 {
        currentStepIndex := currentStepIndex + 1;
        stepProgress := 0.0;
        currentLogIndex := 0;
      } else {
        isRunning := false;
        stepProgress := 100.0;
        forceCompleted := true;
      }
    }

    /** One log-reveal tick. */
    method LogTick()
      modifies this
      ensures State() == LogTickState(old(State()))
      ensures old(Inv(State())) ==> Inv(State())
    {
      if Inv(State()) { LogTickPreservesInv(State()); }
      if !isRunning || |steps| == 0 { return; }
      if currentStepIndex >= |steps| { return; }
      var current := steps[currentStepIndex];
      if current.status != Running { return; }
      var maxLogs := |current.logs|;
      var progressBased := (stepProgress / 100.0 * maxLogs as real).Floor;
      var nextIndex := if progressBased < maxLogs - 1 then progressBased else maxLogs - 1;
      if nextIndex > currentLogIndex {
        currentLogIndex := currentLogIndex + 1;
      }
    }
  }
}
