# eDNA pipeline simulator, modelled in Dafny

This project models the simulated analysis run of the eDNA biodiversity prototype
(sih2025-blackpearl-prototype) and proves its properties. A run takes a catalog of seven bioinformatics steps,
from data download to biodiversity analysis, and advances them one after another on timers. The
model covers:

- the run simulator (`usePipelineExecution`);
- the page that starts a run and samples resource gauges (`PipelineExecution`);
- the static step catalog (`pipelineData`);
- the sample-selection page (`DatabaseSelection`);
- the terminal panel that replays a step's logs (`TerminalView`).

Files, one module each:

- `types.dfy` (`PipelineTypes`): the step, file-block and metrics records. JavaScript's `undefined` becomes `Option`.
- `use_pipeline_execution.dfy` (`UsePipelineExecution`): the hook's six state fields as a `RunState` value. One function per callback gives its effect: `StartState`, `TickState`, `AdvanceState`, `LogTickState` and `StopState`. The run invariant `Inv` comes with lemmas showing each callback preserves it. The class `PipelineRun` holds the same fields; each of its methods is proved to perform exactly its function's update.
- `pipeline_data.dfy` (`PipelineData`): the catalog as a constant, with lemmas on its ids, durations, details, logs and file flow.
- `pipeline_execution.dfy` (`PipelineExecution`):
  - icon attachment;
  - the resource table and the clamped metrics sampler;
  - the overall-progress label and the View Results condition;
  - a class for the page's own state.
- `database_selection.dfy` (`DatabaseSelection`): sample filtering, the selection-list operations and the connection sequence, with a class for the page's state.
- `terminal_view.dfy` (`TerminalView`): the log-line classifier and colours, the loading-caption counters, and the log replay loop.
- `strings.dfy` (`Strings`): `includes` and `toLowerCase`.

Each React callback is one atomic update of the whole state, because the effects re-run on every state change. One progress tick joins the effect body with one interval callback, the body first:

- the body marks a pending step running with its first detail;
- the callback then adds one increment.

The advance timeouts that a completing tick schedules are kept in `pendingAdvances`, oldest first. Each one carries the step index and list length its closure captured. Nothing cancels them, which is what the code does. JavaScript numbers are Dafny reals:

- `Math.floor(x)` is `x.Floor`;
- `Math.round(x)` is `(x + 0.5).Floor`.

## What the code does not guard against

The model keeps these behaviours of the code as they are:

- **Empty step list.** `startPipeline([])` sets `isRunning`, and `isCompleted` is true because `[].every(...)` is true (`StartEmpty`).
- **End of the last step.** The tick that completes the last step only marks every step completed. `isRunning` drops and `forceCompleted` is set when the 2000 ms timeout fires (`CompletedAfterLastTick`, `AdvanceSteps`, `SoloRun`).
- **Zero duration.** The code divides by `duration * 3` with no minimum duration, so the model requires a positive duration of the current step (`CanTick`).
- **Stop and restart.** Neither cancels the pending advance timeout:
  - a stopped run still moves to the next step (`StopDoesNotCancelAdvance`);
  - a fresh run can be pushed past its pending first step by a stale timeout (`RestartKeepsStaleAdvance`).
- **Re-armed intervals.** The log effect depends on `stepProgress` and `steps` (src/hooks/usePipelineExecution.ts:113), and the metrics effect depends on `currentStep` and `stepProgress` (src/pages/PipelineExecution.tsx:86). Every 500 ms progress tick therefore clears the 2000 ms and 3000 ms intervals and arms them again. With real timers neither interval fires while a step is progressing, so `currentLogIndex` barely moves and the running branch of the metrics sampler is in effect never reached. The model lets `LogTick` and `RefreshMetrics` fire at any moment, a superset of the timings the code allows.
- **Log cursor.** `TerminalView` receives `currentLogIndex` but does not destructure it. The terminal shows its own replay of the step's logs, not the simulator's cursor.

## Model

| member | source | states |
|---|---|---|
| UsePipelineExecution.RunState.IsCompleted | src/hooks/usePipelineExecution.ts:128 | every step completed or `forceCompleted`; its properties are carried by `StartEmpty`, `CompletedAfterLastTick`, `NotCompletedBeforeLastStep` and `CompletionIsClosed` |
| UsePipelineExecution.RunState.CurrentStep | src/hooks/usePipelineExecution.ts:129 | the current step exists exactly when the index is inside the list, and is the entry at the index |
| UsePipelineExecution.CurrentStepDefined | src/hooks/usePipelineExecution.ts:129 | on a well-formed run over a non-empty list the current step is defined, and any running step is it |
| UsePipelineExecution.StartState | src/hooks/usePipelineExecution.ts:115-122 | `startPipeline`'s update; its properties are carried by `StartResets`, `StartEstablishesInv` and `StartEmpty` |
| UsePipelineExecution.StopState | src/hooks/usePipelineExecution.ts:124-126 | `stopPipeline`'s update; its properties are carried by `StopPreservesInv` and `StopDoesNotCancelAdvance` |
| UsePipelineExecution.TickState | src/hooks/usePipelineExecution.ts:13-88 | one progress tick; its properties are carried by `TickIdle`, `TickFrame`, `TickCurrentStep` and `TickPreservesInv` |
| UsePipelineExecution.AdvanceState | src/hooks/usePipelineExecution.ts:66-78 | the oldest advance timeout firing; its properties are carried by `AdvanceSteps` and `AdvancePreservesInv` |
| UsePipelineExecution.LogTarget | src/hooks/usePipelineExecution.ts:101-102 | the progress-based log index capped at the last log; used by `LogTickSteps` and the invariant's cursor bound |
| UsePipelineExecution.LogTickState | src/hooks/usePipelineExecution.ts:91-113 | one log-reveal tick; its properties are carried by `LogTickSteps` and `LogTickPreservesInv` |
| UsePipelineExecution.ResetAll | src/hooks/usePipelineExecution.ts:116 | same length and order; each step is the input step with status pending and progress 0, every other field kept |
| UsePipelineExecution.StartResets | src/hooks/usePipelineExecution.ts:115-122 | start keeps the ids in order with every other field. Each step is pending at 0; index, progress and log cursor are 0; running is set; forceCompleted is cleared |
| UsePipelineExecution.StartEstablishesInv | src/hooks/usePipelineExecution.ts:115-122 | starting with positive durations and no advance pending gives a state satisfying the run invariant |
| UsePipelineExecution.StartEmpty | src/hooks/usePipelineExecution.ts:128 | start on an empty list is running and already completed, has no current step, and both ticks leave it unchanged |
| UsePipelineExecution.StopPreservesInv | src/hooks/usePipelineExecution.ts:124-126 | stop keeps the invariant and clears the running flag |
| UsePipelineExecution.StopDoesNotCancelAdvance | src/hooks/usePipelineExecution.ts:124-126 | after a stop, a scheduled advance still moves a non-final step to the next index, and the run stays stopped |
| UsePipelineExecution.RestartKeepsStaleAdvance | src/hooks/usePipelineExecution.ts:66-78 | an advance left over from an earlier run moves a fresh run to step 1 while step 0 is still pending, breaking the invariant |
| UsePipelineExecution.Increment | src/hooks/usePipelineExecution.ts:32-43 | with positive duration the increment is positive and within half to one and a half times 100/(3·duration); it is exactly that base for non-eased ids |
| UsePipelineExecution.FindIndexAbove | src/hooks/usePipelineExecution.ts:47 | the result is the first index whose milestone exceeds p, or -1 exactly when none does |
| UsePipelineExecution.MilestoneOf | src/hooks/usePipelineExecution.ts:46-47 | the milestone index for each band of p: below 0, [0,25), [25,50), [50,75), [75,100), and 100 or more |
| UsePipelineExecution.MessageIndex | src/hooks/usePipelineExecution.ts:46-49 | the detail index is 0, 1, 2, 3 for the quarters of [0,100) and the last index from 100 on, always clamped into the details |
| UsePipelineExecution.TickIdle | src/hooks/usePipelineExecution.ts:14-17 | the tick changes nothing when not running, with no steps, past the end, or on a completed step |
| UsePipelineExecution.TickFrame | src/hooks/usePipelineExecution.ts:51-63 | only the current entry changes; index, running flag, log cursor and forceCompleted are kept; progress stays at most 100 and strictly grows from below 100 |
| UsePipelineExecution.TickCurrentStep | src/hooks/usePipelineExecution.ts:20-83 | only status, progress and message of the current entry change. At 100 or more the step completes with progress 100, its last detail, and one advance scheduled. Below 100 the step is running (a pending one is started) with the new progress and its quarter's detail |
| UsePipelineExecution.TickPreservesInv | src/hooks/usePipelineExecution.ts:13-88 | a tick from an invariant state is defined and keeps the invariant: steps before the index completed, after it pending, at most one advance pending, cursor within the progress bound |
| UsePipelineExecution.CompletedAfterLastTick | src/hooks/usePipelineExecution.ts:57-63 | the tick that completes the last step makes the run completed while it is still running |
| UsePipelineExecution.NotCompletedBeforeLastStep | src/hooks/usePipelineExecution.ts:128 | under the invariant, a run on a step before the last is not completed |
| UsePipelineExecution.AtMostOneRunning | src/hooks/usePipelineExecution.ts:21-25 | under the invariant, any two running steps are the same step, namely the current one |
| UsePipelineExecution.AdvanceSteps | src/hooks/usePipelineExecution.ts:66-78 | an advance fires only after a completed step; before the last step it moves the index up by one and resets progress and log cursor; on the last it stops with progress 100 and forceCompleted |
| UsePipelineExecution.AdvancePreservesInv | src/hooks/usePipelineExecution.ts:66-78 | the advance keeps the invariant |
| UsePipelineExecution.LogTickSteps | src/hooks/usePipelineExecution.ts:92-110 | only the log cursor may change. It rises by exactly one iff the current step is running and min(floor(progress/100·n), n-1) exceeds it, and never falls |
| UsePipelineExecution.LogTickPreservesInv | src/hooks/usePipelineExecution.ts:97-110 | the log tick keeps the cursor within the logs and at most the progress bound |
| UsePipelineExecution.CompletionIsClosed | src/hooks/usePipelineExecution.ts:128 | a completed run stays completed under tick, advance, log tick and stop |
| UsePipelineExecution.SoloRun | src/hooks/usePipelineExecution.ts:29-83 | a one-step run of duration 1: running after the first tick, completed while still running after the third, then stopped with forceCompleted by the advance |
| UsePipelineExecution.PipelineRun.constructor | src/hooks/usePipelineExecution.ts:5-10 | the initial state: no steps, index 0, not running, progress 0, cursor 0, `forceCompleted` false; `isCompleted` is already true, because an empty list satisfies `every` |
| UsePipelineExecution.PipelineRun.StartPipeline | src/hooks/usePipelineExecution.ts:115-122 | the new state is the start function of the old one, and the invariant holds when no advance was pending and durations are positive |
| UsePipelineExecution.PipelineRun.StopPipeline | src/hooks/usePipelineExecution.ts:124-126 | the new state is the old one with running cleared, and the invariant is kept |
| UsePipelineExecution.PipelineRun.Tick | src/hooks/usePipelineExecution.ts:13-88 | the new state is the tick function of the old one, and the invariant is kept |
| UsePipelineExecution.PipelineRun.Advance | src/hooks/usePipelineExecution.ts:66-78 | the new state is the advance function of the old one, and the invariant is kept |
| UsePipelineExecution.PipelineRun.LogTick | src/hooks/usePipelineExecution.ts:91-113 | the new state is the log-tick function of the old one, and the invariant is kept |
| PipelineData.CatalogIdsInOrder | src/data/pipelineData.ts:3-214 | seven steps with the ids data-download … diversity-analysis in that order, pairwise distinct |
| PipelineData.CatalogDurationsPositive | src/data/pipelineData.ts:8-187 | every duration is positive |
| PipelineData.CatalogStepShape | src/data/pipelineData.ts:3-214 | every step has four details and at least six logs (one has exactly six), and starts pending at 0 with no icon or message |
| PipelineData.CatalogInputsProduced | src/data/pipelineData.ts:26-213 | every input file of a step is an output of some earlier step |
| PipelineData.OutputsBefore | src/data/pipelineData.ts:26-213 | a file is listed exactly when some step before index k outputs it |
| PipelineExecution.StepIcon | src/pages/PipelineExecution.tsx:38-49 | the mapped icon for a known id, Activity for any other |
| PipelineExecution.WithIcons | src/pages/PipelineExecution.tsx:140-143 | same length and order; each step is the input step with its id's icon, nothing else changed |
| PipelineExecution.IconsKeepCatalog | src/pages/PipelineExecution.tsx:138-147 | the list handed to start has the catalog ids in order and positive durations; every id has an icon, and only quality-control's equals the fallback |
| PipelineExecution.CatalogStartEstablishesInv | src/pages/PipelineExecution.tsx:138-147 | starting the page's run with nothing pending satisfies the run invariant with the catalog's ids |
| PipelineExecution.Patterns | src/pages/PipelineExecution.tsx:90-133 | the resource table at a given progress; its properties are carried by `PatternKeysAreCatalogIds`, `ResourcePatternAffine` and `ResourceOrdering` |
| PipelineExecution.ResourcePattern | src/pages/PipelineExecution.tsx:89-135 | `getStepResourcePattern`, the table entry or the default; its properties are carried by `ResourcePatternAffine` and `ResourceOrdering` |
| PipelineExecution.PatternKeysAreCatalogIds | src/pages/PipelineExecution.tsx:90-133 | the table's keys are exactly the catalog ids, and the three eased ids are among them |
| PipelineExecution.ResourcePatternAffine | src/pages/PipelineExecution.tsx:89-135 | every channel changes linearly in progress at the rate fixed by its values at 0 and 100; unknown ids get {20,30,10,5} |
| PipelineExecution.ResourceOrdering | src/pages/PipelineExecution.tsx:91-132 | for progress in [0,100]: novelty CPU > ASV CPU > any other id's CPU, and download network > any other id's network |
| PipelineExecution.Clamp | src/pages/PipelineExecution.tsx:69-72 | the result lies in [lo,hi], equals x inside, and the nearer bound outside |
| PipelineExecution.SampleMetrics | src/pages/PipelineExecution.tsx:62-86 | running samples are clamped (cpu [5,95], memory [10,90], disk and network [0,100]); idle samples lie in [5,15), [15,25), [0,5), [0,5) for draws in [0,1) |
| PipelineExecution.PerturbationBands | src/pages/PipelineExecution.tsx:69-72 | for draws in [0,1), each pre-clamp value is within ±5, ±2.5, ±10, ±7.5 of its baseline |
| PipelineExecution.RunningSampleNearPattern | src/pages/PipelineExecution.tsx:64-73 | each running reading is within its band of the clamped pattern of the current step at its progress |
| PipelineExecution.IdleIgnoresStep | src/pages/PipelineExecution.tsx:74-81 | the idle reading depends only on the draws, not on the step or the progress |
| PipelineExecution.Round | src/pages/PipelineExecution.tsx:196 | the result is the integer within half a unit of x, halves rounded up |
| PipelineExecution.OverallPercent | src/pages/PipelineExecution.tsx:196 | undefined exactly for an empty list; otherwise in [0,100] whenever index < length and progress is in [0,100] |
| PipelineExecution.OverallPercentEnds | src/pages/PipelineExecution.tsx:196 | 0 % at the start, 100 % on the last step at progress 100 |
| PipelineExecution.ShowViewResults | src/pages/PipelineExecution.tsx:177 | the View Results condition; its properties are carried by `ViewResultsWhen` |
| PipelineExecution.ViewResultsWhen | src/pages/PipelineExecution.tsx:177 | under the invariant the button is hidden before the last step, running or stopped; on the last step it shows after a stop and after the final advance |
| PipelineExecution.PipelineExecutionPage.constructor | src/pages/PipelineExecution.tsx:18-35 | not started, zero metrics, a fresh simulator in its initial state |
| PipelineExecution.PipelineExecutionPage.HandleStartPipeline | src/pages/PipelineExecution.tsx:138-147 | marks execution started and starts the run on the catalog with icons, establishing the invariant with the catalog ids when nothing was pending |
| PipelineExecution.PipelineExecutionPage.RefreshMetrics | src/pages/PipelineExecution.tsx:62-86 | the gauges become the sample for the run's current running flag, step and progress |
| DatabaseSelection.MatchesSearch | src/pages/DatabaseSelection.tsx:51-52 | the lower-cased search occurs in the lower-cased location or id; its properties are carried by `FilterSamples` and `FilterKeepsAllByDefault` |
| DatabaseSelection.MatchesDepth | src/pages/DatabaseSelection.tsx:54-57 | the depth rule; its properties are carried by `DepthFilterZones` |
| DatabaseSelection.MatchesEnvironment | src/pages/DatabaseSelection.tsx:59-60 | the environment rule; used by `FilterSamples` |
| DatabaseSelection.Keep | src/pages/DatabaseSelection.tsx:62 | all three rules hold; `FilterSamples` keeps exactly the samples satisfying it |
| DatabaseSelection.FilterSamples | src/pages/DatabaseSelection.tsx:50-63 | an order-preserving subsequence of the samples that keeps exactly those passing search, depth and environment, every copy of a kept sample (multiset count equal) and none of the others |
| DatabaseSelection.FilterKeepsAllByDefault | src/pages/DatabaseSelection.tsx:50-63 | empty search with both filters at all keeps every sample |
| DatabaseSelection.DepthFilterZones | src/pages/DatabaseSelection.tsx:54-57 | all keeps every sample; hadal, abyssal and bathyal each keep exactly the samples of their zone; any other value keeps nothing |
| DatabaseSelection.WithoutId | src/pages/DatabaseSelection.tsx:69 | an order-preserving subsequence holding every copy of each entry with another id and no entry with the given id |
| DatabaseSelection.Toggle | src/pages/DatabaseSelection.tsx:66-73 | `toggleSampleSelection`'s update; its properties are carried by `ToggleEffect` and `ToggleTwiceRestores` |
| DatabaseSelection.ToggleEffect | src/pages/DatabaseSelection.tsx:65-74 | toggling a selected id removes every entry with it, in order, and keeps every copy of every other entry; toggling an unselected sample appends it |
| DatabaseSelection.ToggleTwiceRestores | src/pages/DatabaseSelection.tsx:65-74 | toggling an unselected sample twice gives back the selection |
| DatabaseSelection.NewSelections | src/pages/DatabaseSelection.tsx:77-79 | the visible samples whose id the selection lacks, in visible order, every copy of each and no other |
| DatabaseSelection.SelectAllVisible | src/pages/DatabaseSelection.tsx:76-81 | `selectAllVisible`'s update; its properties are carried by `SelectAllVisibleEffect` |
| DatabaseSelection.SelectAllVisibleEffect | src/pages/DatabaseSelection.tsx:76-81 | the old selection is an unchanged prefix and every visible id is selected. The appended part is the visible samples not yet selected, in visible order, every copy kept |
| DatabaseSelection.DatabaseSelectionPage.constructor | src/pages/DatabaseSelection.tsx:23-30 | disconnected with no samples, empty selection and search, both filters all |
| DatabaseSelection.DatabaseSelectionPage.BeginConnect | src/pages/DatabaseSelection.tsx:35 | status becomes connecting, everything else kept |
| DatabaseSelection.DatabaseSelectionPage.CompleteConnect | src/pages/DatabaseSelection.tsx:40-44 | connected with the mock samples and the clock reading, selection and filters kept |
| DatabaseSelection.DatabaseSelectionPage.SetSearchTerm | src/pages/DatabaseSelection.tsx:193 | the search term becomes the input, nothing else changes |
| DatabaseSelection.DatabaseSelectionPage.SetDepthFilter | src/pages/DatabaseSelection.tsx:202 | the depth filter becomes the input, nothing else changes |
| DatabaseSelection.DatabaseSelectionPage.SetEnvironmentFilter | src/pages/DatabaseSelection.tsx:216 | the environment filter becomes the input, nothing else changes |
| DatabaseSelection.DatabaseSelectionPage.ToggleSampleSelection | src/pages/DatabaseSelection.tsx:65-74 | the selection becomes the toggle of the old one |
| DatabaseSelection.DatabaseSelectionPage.SelectAllVisibleSamples | src/pages/DatabaseSelection.tsx:76-81 | the selection becomes the old one followed by the new visible samples |
| DatabaseSelection.DatabaseSelectionPage.ClearSelection | src/pages/DatabaseSelection.tsx:83-85 | the selection becomes empty |
| DatabaseSelection.DatabaseSelectionPage.StartAnalysis | src/pages/DatabaseSelection.tsx:87-93 | the selection is stored iff it is non-empty, and what is stored is the selection |
| DatabaseSelection.ConnectionSequence | src/pages/DatabaseSelection.tsx:33-48 | a fresh page goes disconnected, connecting, connected, with the mock samples available |
| Strings.Contains | src/components/pipeline/TerminalView.tsx:112-124 | true exactly when the substring occurs at some position |
| Strings.ContainsEmpty | src/pages/DatabaseSelection.tsx:51-52 | every string contains the empty search |
| Strings.ToLower | src/pages/DatabaseSelection.tsx:51-52 | same length, each character lowered (ASCII letters shifted by 32, all else kept) |
| TerminalView.GetLogType | src/components/pipeline/TerminalView.tsx:109-127 | error iff an error word occurs; else warning iff a warning word occurs; else success iff a success word occurs; else info; never loading |
| TerminalView.GetLogColor | src/components/pipeline/TerminalView.tsx:129-142 | `getLogColor`; its properties are carried by `LogColors` |
| TerminalView.LogColors | src/components/pipeline/TerminalView.tsx:129-142 | error, warning, success and loading map to red, yellow, green and blue, info to slate; a classified line is never blue |
| TerminalView.CapitalisedErrorIsInfo | src/components/pipeline/TerminalView.tsx:112-126 | the checks are case-sensitive: the line "Error" is info |
| TerminalView.Dots | src/components/pipeline/TerminalView.tsx:51 | n characters, all dots |
| TerminalView.LoadingFrame | src/components/pipeline/TerminalView.tsx:45-58 | the caption at interval tick k; `AnimateLoading` is proved to produce it and `LoadingFrameFacts` states its shape |
| TerminalView.LoadingFrameFacts | src/components/pipeline/TerminalView.tsx:45-58 | at most three dots; the caption changes exactly when the next tick is a multiple of 8; the frames repeat every 56 ticks |
| TerminalView.LoadingMessagesDistinct | src/components/pipeline/TerminalView.tsx:35-43 | the seven captions are pairwise different |
| TerminalView.LoadingAnimation.constructor | src/components/pipeline/TerminalView.tsx:45-46 | both counters start at 0 |
| TerminalView.LoadingAnimation.Fire | src/components/pipeline/TerminalView.tsx:48-57 | the caption is message[index mod 7] with dotCount mod 4 dots; dotCount rises by one and the index rises when dotCount reaches a multiple of 8 |
| TerminalView.AnimateLoading | src/components/pipeline/TerminalView.tsx:45-58 | tick k shows messages[floor(k/8) mod 7] followed by k mod 4 dots |
| TerminalView.Terminal.constructor | src/components/pipeline/TerminalView.tsx:13-20 | no lines shown, not loading |
| TerminalView.Terminal.ShowStep | src/components/pipeline/TerminalView.tsx:65-107 | no step or not running clears the lines and a step without logs leaves them. Otherwise the lines are the step's logs in order, each with its clock reading and its classification, and loading is off |

## Left out

- JSX rendering, styling, framer-motion, recharts and the icon components; an icon is represented by its component name.
- Wall-clock timing: intervals and timeouts are methods that the caller fires. Interleavings of callbacks are not modelled, nor is React StrictMode calling updaters twice.
- The un-cancelled overlapping `processLogs` runs of the terminal: `Terminal.ShowStep` models one uninterrupted run, and its 1–3 s and 500 ms waits are left out.
- The cursor-blink interval and the expand button of the terminal: display state only.
- `Math.random()`: the sampler takes its four draws as a parameter with values in [0, 1).
- Clocks: `new Date()` and `toLocaleTimeString()` are parameters (`now`, `clock`).
- `localStorage`, `navigate`, `window.open`, `console.log` and `JSON.parse` of the stored dataset: `StartAnalysis` only returns what would be stored.
- The simulated 2000 ms connection delay: the connection is split into `BeginConnect` and `CompleteConnect`.
- The `parseFloat` file-size sum of the selection summary and `Intl` number formatting: display only.
- Strings.ToLower: lowers only ASCII letters, not the full Unicode case mapping of `toLowerCase`.
- PipelineExecution.ResourcePattern and PipelineExecution.StepIcon: ids that name `Object.prototype` members (such as `toString`) are treated as unknown, although JavaScript's record lookup would find the inherited member (a truthy value, so `getStepIcon` would not fall back to Activity either).
- The `error` step status is in the type but never produced; the run invariant excludes it.
- UsePipelineExecution.CanTick: the tick requires a positive duration of the current step. With a zero duration JavaScript computes an `Infinity` increment, so the step would complete at 100 in its first tick; a negative duration would make progress fall. Neither case reaches the page: every catalog duration is positive (`PipelineData.CatalogDurationsPositive`).
