/**
 * The terminal panel of src/components/pipeline/TerminalView.tsx: it classifies log lines,
 * animates a loading caption, and replays the current step's logs one by one.
 *
 * The component receives `currentLogIndex` among its props but never reads it: the lines it
 * shows come from its own replay loop, not from the simulator's log cursor.
 */
module TerminalView {
  import PipelineTypes
  import opened Strings

  datatype LogType = Info | Success | Warning | Error | Loading

  // ---------------------------------------------------------------------------
  // getLogType and getLogColor

  predicate IsErrorLine(log: string) {
    Contains(log, "error") || Contains(log, "failed") || Contains(log, "ERROR")
  }

  predicate IsWarningLine(log: string) {
    Contains(log, "warning") || Contains(log, "WARNING")
  }

  predicate IsSuccessLine(log: string) {
    Contains(log, "completed") || Contains(log, "success") || Contains(log, "PASSED") || Contains(log, "finished")
  }

  /**
   * `getLogType`: the first of error, warning and success whose words occur in the line (case
   * counts), info when none does; it never answers loading.
   */
  // Its partners are `LogColors` (the colour a classified line gets) and `CapitalisedErrorIsInfo`.
  function GetLogType(log: string): (t: LogType)
    ensures t != Loading
    ensures t == Error <==> IsErrorLine(log)
    ensures t == Warning <==> !IsErrorLine(log) && IsWarningLine(log)
    ensures t == Success <==> !IsErrorLine(log) && !IsWarningLine(log) && IsSuccessLine(log)
    ensures t == Info <==> !IsErrorLine(log) && !IsWarningLine(log) && !IsSuccessLine(log)
  {
    if IsErrorLine(log) then Error
    else if IsWarningLine(log) then Warning
    else if IsSuccessLine(log) then Success
    else Info
  }

  /** The string the component passes around for a type. */
  function TypeName(t: LogType): string {
    match t
    case Info => "info"
    case Success => "success"
    case Warning => "warning"
    case Error => "error"
    case Loading => "loading"
  }

  /** `getLogColor`, over the type's string. */
  function GetLogColor(logType: string): string {
    if logType == "error" then "text-red-400"
    else if logType == "warning" then "text-yellow-400"
    else if logType == "success" then "text-green-400"
    else if logType == "loading" then "text-blue-400"
    else "text-slate-300"
  }

  /** Each type has its own colour, and a classified line is never shown in the loading colour. */
  lemma LogColors(log: string)
    ensures GetLogColor(TypeName(Error)) == "text-red-400"
    ensures GetLogColor(TypeName(Warning)) == "text-yellow-400"
    ensures GetLogColor(TypeName(Success)) == "text-green-400"
    ensures GetLogColor(TypeName(Loading)) == "text-blue-400"
    ensures GetLogColor(TypeName(Info)) == "text-slate-300"
    ensures GetLogColor(TypeName(GetLogType(log))) != "text-blue-400"
  {
  }

  /** Capitalised words are not recognised: "Error" is none of the spellings of an error. */
  lemma CapitalisedErrorIsInfo()
    ensures GetLogType("Error") == Info
  {
    NoneOfTheWords("Error", 'e', 'f', 'R', 'w', 'W', 'c', 's', 'P');
  }

  /**
   * Helper: a line avoiding one character of each word (in the order error, failed, ERROR,
   * warning, WARNING, completed, success/finished, PASSED) is an info line.
   */
  lemma NoneOfTheWords(log: string, e1: char, e2: char, e3: char, w1: char, w2: char, c1: char, s1: char, p1: char)
    requires e1 in "error" && e2 in "failed" && e3 in "ERROR" && w1 in "warning" && w2 in "WARNING"
    requires c1 in "completed" && s1 in "success" && s1 in "finished" && p1 in "PASSED"
    requires e1 !in log && e2 !in log && e3 !in log && w1 !in log && w2 !in log
    requires c1 !in log && s1 !in log && p1 !in log
    ensures GetLogType(log) == Info
  {
    AbsentChar(log, "error", e1);
    AbsentChar(log, "failed", e2);
    AbsentChar(log, "ERROR", e3);
    AbsentChar(log, "warning", w1);
    AbsentChar(log, "WARNING", w2);
    AbsentChar(log, "completed", c1);
    AbsentChar(log, "success", s1);
    AbsentChar(log, "finished", s1);
    AbsentChar(log, "PASSED", p1);
  }

  lemma AbsentChar(log: string, word: string, c: char)
    requires c in word && c !in log
    ensures !Contains(log, word)
  {
    var k :| 0 <= k < |word| && word[k] == c;
    MissingChar(log, word, k);
  }

  // ---------------------------------------------------------------------------
  // The loading caption

  const LoadingMessages: seq<string> := [
    "Initializing analysis modules",
    "Loading reference databases",
    "Allocating memory buffers",
    "Validating input parameters",
    "Configuring parallel processing",
    "Establishing database connections",
    "Optimizing computational resources"]

  /** `".".repeat(n)`. */
  function Dots(n: nat): (r: string)
    ensures |r| == n && forall i :: 0 <= i < n ==> r[i] == '.'
  {
    if n == 0 then "" else Dots(n - 1) + "."
  }

  /** The caption index and the dot count shown at interval tick `k` (counting from 0). */
  function MessageIndexAt(k: nat): nat {
    (k / 8) % |LoadingMessages|
  }

  function DotCountAt(k: nat): nat {
    k % 4
  }

  function LoadingFrame(k: nat): string {
    LoadingMessages[MessageIndexAt(k)] + Dots(DotCountAt(k))
  }

  /**
   * At most three dots; the caption moves on exactly when the next tick is a multiple of 8;
   * the whole animation repeats every 56 ticks.
   */
  lemma LoadingFrameFacts(k: nat)
    ensures DotCountAt(k) <= 3
    ensures MessageIndexAt(k + 1) != MessageIndexAt(k) <==> (k + 1) % 8 == 0
    ensures LoadingFrame(k + 56) == LoadingFrame(k)
  {
    if (k + 1) % 8 == 0 {
      assert (k + 1) / 8 == k / 8 + 1;
    } else {
      assert (k + 1) / 8 == k / 8;
    }
    assert (k + 56) / 8 == k / 8 + 7;
    assert (k + 56) % 4 == k % 4;
  }

  /** The seven captions are different, so a caption change is visible. */
  lemma LoadingMessagesDistinct()
    ensures forall i, j :: 0 <= i < j < |LoadingMessages| ==> LoadingMessages[i] != LoadingMessages[j]
  {
  }

  /** The two counters that the interval closure keeps, and the caption it last set. */
  class LoadingAnimation {
    var messageIndex: nat
    var dotCount: nat
    var loadingText: string

    constructor()
      ensures messageIndex == 0 && dotCount == 0 && loadingText == ""
    {
      messageIndex, dotCount, loadingText := 0, 0, "";
    }

    /** One tick of the 300 ms interval. */
    method Fire()
      modifies this
      ensures loadingText == LoadingMessages[old(messageIndex) % |LoadingMessages|] + Dots(old(dotCount) % 4)
      ensures dotCount == old(dotCount) + 1
      ensures messageIndex == if dotCount % 8 == 0 then old(messageIndex) + 1 else old(messageIndex)
    {
      var baseMessage := LoadingMessages[messageIndex % |LoadingMessages|];
      var dots := Dots(dotCount % 4);
      loadingText := baseMessage + dots;
      dotCount := dotCount + 1;
      if dotCount % 8 == 0 {
        messageIndex := messageIndex + 1;
      }
    }
  }

  /** Runs the animation for `ticks` ticks from fresh counters: tick `k` shows `LoadingFrame(k)`. */
  method AnimateLoading(ticks: nat) returns (frames: seq<string>)
    ensures |frames| == ticks
    ensures forall k :: 0 <= k < ticks ==> frames[k] == LoadingFrame(k)
  {
    var animation := new LoadingAnimation();
    frames := [];
    while |frames| < ticks
      invariant |frames| <= ticks
      invariant animation.dotCount == |frames| && animation.messageIndex == |frames| / 8
      invariant forall k :: 0 <= k < |frames| ==> frames[k] == LoadingFrame(k)
    {
      animation.Fire();
      frames := frames + [animation.loadingText];
    }
  }

  // ---------------------------------------------------------------------------
  // The log replay

  /** A displayed line; `timestamp` is the clock's `toLocaleTimeString` reading. */
  datatype LogEntry = LogEntry(text: string, timestamp: string, logType: LogType)

  class Terminal {
    var displayedLogs: seq<LogEntry>
    var isLoading: bool

    constructor()
      ensures displayedLogs == [] && !isLoading
    {
      displayedLogs, isLoading := [], false;
    }

    /**
     * The effect that runs when the step or the running flag changes, with one uninterrupted
     * `processLogs` run: no step or not running clears the lines; a step without logs leaves
     * them; otherwise the step's logs are appended one at a time, each classified, so that the
     * lines shown are always a prefix of the logs and at the end all of them. `clock[i]` is the
     * time read when line `i` is added.
     */
    method ShowStep(step: PipelineTypes.Option<PipelineTypes.Step>, isRunning: bool, clock: seq<string>)
      requires step.Some? && isRunning ==> |clock| >= |step.value.logs|
      modifies this
      ensures step.None? || !isRunning ==> displayedLogs == [] && isLoading == old(isLoading)
      ensures step.Some? && isRunning && step.value.logs == [] ==>
        displayedLogs == old(displayedLogs) && isLoading == old(isLoading)
      ensures step.Some? && isRunning && step.value.logs != [] ==>
        && |displayedLogs| == |step.value.logs|
        && (forall i :: 0 <= i < |displayedLogs| ==>
              displayedLogs[i] == LogEntry(step.value.logs[i], clock[i], GetLogType(step.value.logs[i])))
        && !isLoading
    {
      if step.None? || !isRunning {
        displayedLogs := [];
        return;
      }
      var logs := step.value.logs;
      if |logs| == 0 {
        return;
      }
      displayedLogs := [];
      var i := 0;
      while i < |logs|
        invariant 0 <= i <= |logs|
        invariant |displayedLogs| == i
        invariant forall j :: 0 <= j < i ==> displayedLogs[j] == LogEntry(logs[j], clock[j], GetLogType(logs[j]))
        invariant i > 0 ==> !isLoading
      {
        var log := logs[i];
        // The loading flag is raised for the 1-3 s wait before every line but the first; the
        // wait itself is not modelled, so the flag falls again at once.
        if i > 0 {
          isLoading := true;
        }
        isLoading := false;
        displayedLogs := displayedLogs + [LogEntry(log, clock[i], GetLogType(log))];
        i := i + 1;
      }
    }
  }
}
