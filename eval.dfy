/**
 * The decision logic of the benchmark harness: which task directories are
 * loaded, how a task's timeout is chosen, which part of the agent's output is
 * checked, how expectations and the verifier decide the verdict, and which
 * files of a task are copied into the agent's workspace.
 */
module Bench {
  import opened Wrappers
  import opened Strings
  import opened FileSystem

  // ---------------------------------------------------------------------
  // Log tails
  // ---------------------------------------------------------------------

  const Newline: string := "\n"

  /** `getLastNLines(s, n)`: the last `n` lines and true when `s` has more
      than `n` lines, `s` itself and false otherwise. */
  function GetLastNLines(s: string, n: nat): (r: (string, bool))
    ensures r.1 <==> |Split(s, '\n')| > n
    ensures !r.1 ==> r.0 == s
  {
    var lines := Split(s, '\n');
    if |lines| > n then (Join(lines[|lines| - n..], Newline), true) else (s, false)
  }

  /** A truncated tail is a suffix of the log that starts right after a line
      break and holds exactly `n` lines; with `n == 0` it is empty. */
  lemma LastLinesAreSuffix(s: string, n: nat)
    requires GetLastNLines(s, n).1
    ensures var t := GetLastNLines(s, n).0;
      (n == 0 ==> t == "") &&
      (n > 0 ==> |t| < |s| && s[|s| - |t|..] == t && s[|s| - |t| - 1] == '\n' &&
                 Split(t, '\n') == Split(s, '\n')[|Split(s, '\n')| - n..])
  {
    var lines := Split(s, '\n');
    var t := GetLastNLines(s, n).0;
    if n > 0 {
      var k := |lines| - n;
      var init, tail := lines[..k], lines[k..];
      assert lines == init + tail;
      JoinSplit(s, '\n');
      JoinAppend(init, tail, Newline);
      assert s == Join(init, Newline) + Newline + t;
      SplitJoin(tail, '\n');
    }
  }

  // ---------------------------------------------------------------------
  // Timeouts (durations in nanoseconds)
  // ---------------------------------------------------------------------

  const Minute: int := 60 * 1_000_000_000
  const DefaultMaxDuration: int := 5 * Minute

  /** The cap on a task's run: `MaxAgentDuration`, or five minutes when that
      is not positive. */
  function MaxTaskDuration(maxAgent: int): (r: int)
    ensures r > 0
    ensures maxAgent > 0 ==> r == maxAgent
    ensures maxAgent <= 0 ==> r == DefaultMaxDuration
  {
    if maxAgent <= 0 then DefaultMaxDuration else maxAgent
  }

  /** The timeout of a task. `parse` is `time.ParseDuration`. */
  function EffectiveTimeout(maxAgent: int, taskTimeout: string, parse: string -> Result<int, string>): (r: Result<int, string>)
    ensures r.Ok? ==> 0 < r.value <= MaxTaskDuration(maxAgent)
    ensures r.Err? <==> taskTimeout != "" && parse(taskTimeout).Err?
    ensures r.Err? ==> r.error == parse(taskTimeout).error
    ensures taskTimeout != "" && parse(taskTimeout).Ok? && 0 < parse(taskTimeout).value <= MaxTaskDuration(maxAgent) ==>
              r == parse(taskTimeout)
    ensures taskTimeout != "" && parse(taskTimeout).Ok? && !(0 < parse(taskTimeout).value <= MaxTaskDuration(maxAgent)) ==>
              r == Ok(MaxTaskDuration(maxAgent))
    ensures taskTimeout == "" ==> r == Ok(MaxTaskDuration(maxAgent))
  {
    var cap := MaxTaskDuration(maxAgent);
    if taskTimeout == "" then Ok(cap)
    else
      match parse(taskTimeout)
      case Err(e) => Err(e)
      case Ok(t) => if t <= 0 || t > cap then Ok(cap) else Ok(t)
  }

  // ---------------------------------------------------------------------
  // The output that expectations are checked against
  // ---------------------------------------------------------------------

  const RunMarker: string := "Running:"

  /** The text after the first line break of `s`, empty when there is none. */
  function AfterLineBreak(s: string): (r: string)
    ensures |r| <= |s| && r == s[|s| - |r|..]
    ensures Index(s, Newline) == -1 ==> r == ""
    ensures Index(s, Newline) >= 0 ==> |r| == |s| - Index(s, Newline) - 1
  {
    var j := Index(s, Newline);
    if j == -1 then "" else s[j + 1..]
  }

  /** The agent's output after the line of its last `Running:` command. */
  function LastCommandOutput(out: string): (r: string)
    ensures |r| <= |out| && r == out[|out| - |r|..]
    ensures !Contains(out, RunMarker) ==> r == out
  {
    var i := LastIndex(out, RunMarker);
    if i == -1 then out
    else
      var r := AfterLineBreak(out[i..]);
      assert out[i..][|out| - i - |r|..] == out[|out| - |r|..];
      r
  }

  /** When a command ran, the checked output lies after the last marker and
      its line, so it contains no marker. */
  lemma {:induction false} LastCommandOutputAfterMarker(out: string)
    requires Contains(out, RunMarker)
    ensures !Contains(LastCommandOutput(out), RunMarker)
  {
    var i := LastIndex(out, RunMarker);
    var r := LastCommandOutput(out);
    assert r == AfterLineBreak(out[i..]);
    forall p | 0 <= p <= |r| ensures !OccursAt(r, RunMarker, p) {
      if OccursAt(r, RunMarker, p) {
        OccursInSuffix(out, r, RunMarker, p);
      }
    }
  }

  /** When a command ran but its line does not end, the checked output is
      empty. */
  lemma {:induction false} LastCommandOutputUnterminated(out: string)
    requires Contains(out, RunMarker)
    ensures 0 <= LastIndex(out, RunMarker)
    ensures !Contains(out[LastIndex(out, RunMarker)..], Newline) ==> LastCommandOutput(out) == ""
  {
  }

  /** When a command ran and its line ends, the checked output starts right
      after the first line break that follows the last marker. */
  lemma {:induction false} LastCommandOutputAfterLine(out: string)
    requires Contains(out, RunMarker)
    requires Contains(out[LastIndex(out, RunMarker)..], Newline)
    ensures FollowsFirstLineBreak(out, LastIndex(out, RunMarker), LastCommandOutput(out))
  {
    var i := LastIndex(out, RunMarker);
    assert LastCommandOutput(out) == AfterLineBreak(out[i..]);
    FirstLineBreak(out, i);
  }

  lemma {:induction false} FirstLineBreak(out: string, i: nat)
    requires i <= |out| && Contains(out[i..], Newline)
    ensures FollowsFirstLineBreak(out, i, AfterLineBreak(out[i..]))
  {
    var rem := out[i..];
    var j := Index(rem, Newline);
    assert j >= 0;
    var e := i + j;
    assert AfterLineBreak(rem) == rem[j + 1..] == out[e + 1..];
    assert out[e] == rem[j..j + 1][0];
    NoneBeforeIndex(rem, Newline);
    assert rem[..j] == out[i..e];
  }

  /** `r` is the rest of `out` after the first line break at or after `i`. */
  predicate FollowsFirstLineBreak(out: string, i: nat, r: string) {
    var e := |out| - |r| - 1;
    i <= e < |out| && out[e] == '\n' && out[e + 1..] == r && !Contains(out[i..e], Newline)
  }

  // ---------------------------------------------------------------------
  // Expectations and verdict
  // ---------------------------------------------------------------------

  datatype Expectation = Expectation(contains: string)

  /** One entry of `TaskResult.Failures`. */
  datatype Failure =
    | TimedOut(timeout: int)
    | InvalidRegex(pattern: string)
    | NoMatch(pattern: string, output: string)
    | VerifierScriptFailed(message: string)
    | PromptUnresolved(message: string)

  /** The failure one expectation adds; `compiles` and `matches` stand for
      `regexp.Compile` and `MatchString`. */
  function ExpectationFailure(e: Expectation, out: string, compiles: string -> bool, matches: (string, string) -> bool): Option<Failure> {
    if e.contains == "" then None
    else if !compiles(e.contains) then Some(InvalidRegex(e.contains))
    else if !matches(e.contains, out) then Some(NoMatch(e.contains, out))
    else None
  }

  /** The failures of the expectations, in their order. */
  function ExpectationFailures(es: seq<Expectation>, out: string, compiles: string -> bool, matches: (string, string) -> bool): (r: seq<Failure>)
    ensures |r| <= |es|
  {
    if |es| == 0 then []
    else
      var f := ExpectationFailure(es[|es| - 1], out, compiles, matches);
      ExpectationFailures(es[..|es| - 1], out, compiles, matches) + (if f.Some? then [f.value] else [])
  }

  predicate Met(e: Expectation, out: string, compiles: string -> bool, matches: (string, string) -> bool) {
    e.contains == "" || (compiles(e.contains) && matches(e.contains, out))
  }

  /** There are no expectation failures exactly when every non-empty pattern
      compiles and matches. */
  lemma {:induction false} NoFailuresIffAllMet(es: seq<Expectation>, out: string, compiles: string -> bool, matches: (string, string) -> bool)
    ensures ExpectationFailures(es, out, compiles, matches) == [] <==>
            forall k :: 0 <= k < |es| ==> Met(es[k], out, compiles, matches)
  {
    if |es| > 0 {
      NoFailuresIffAllMet(es[..|es| - 1], out, compiles, matches);
      assert forall k :: 0 <= k < |es| - 1 ==> es[..|es| - 1][k] == es[k];
    }
  }

  /** There is at most one failure per expectation, and each names the
      pattern it comes from. */
  lemma {:induction false} FailuresNamePatterns(es: seq<Expectation>, out: string, compiles: string -> bool, matches: (string, string) -> bool)
    ensures var fs := ExpectationFailures(es, out, compiles, matches);
      |fs| <= |es| &&
      forall k :: 0 <= k < |fs| ==>
        ((fs[k].InvalidRegex? || fs[k].NoMatch?) &&
         exists j :: 0 <= j < |es| && es[j].contains == fs[k].pattern && es[j].contains != "")
  {
    if |es| > 0 {
      var init, e := es[..|es| - 1], es[|es| - 1];
      FailuresNamePatterns(init, out, compiles, matches);
      var prev := ExpectationFailures(init, out, compiles, matches);
      var f := ExpectationFailure(e, out, compiles, matches);
      var fs := ExpectationFailures(es, out, compiles, matches);
      assert fs == prev + (if f.Some? then [f.value] else []);
      forall k | 0 <= k < |fs|
        ensures (fs[k].InvalidRegex? || fs[k].NoMatch?) &&
                exists j :: 0 <= j < |es| && es[j].contains == fs[k].pattern && es[j].contains != ""
      {
        if k < |prev| {
          assert fs[k] == prev[k];
          var j :| 0 <= j < |init| && init[j].contains == prev[k].pattern && init[j].contains != "";
          assert init[j] == es[j];
        } else {
          assert fs[k] == f.value;
          assert es[|es| - 1].contains == fs[k].pattern;
        }
      }
    }
  }

  /** The final result and failures: success when the verifier passed or
      every one of at least one expectation was met. */
  function Verdict(numExpect: nat, expectFailures: seq<Failure>, verifierSucceeded: bool, failures: seq<Failure>): (r: (string, seq<Failure>))
    ensures r.0 == "success" <==> verifierSucceeded || (numExpect > 0 && expectFailures == [])
    ensures r.0 == "success" || r.0 == "fail"
    ensures r.0 == "success" ==> r.1 == failures
    ensures r.0 == "fail" ==> r.1 == failures + expectFailures
  {
    if verifierSucceeded || (numExpect > 0 && expectFailures == []) then ("success", failures)
    else ("fail", failures + expectFailures)
  }

  /** A task whose verifier failed still succeeds on its met expectations,
      and keeps the verifier failure in its failures. */
  lemma SuccessKeepsVerifierFailure(message: string)
    ensures Verdict(1, [], false, [VerifierScriptFailed(message)]) == ("success", [VerifierScriptFailed(message)])
  {
  }

  datatype LLMConfig = LLMConfig(id: string, providerId: string, modelId: string, enableToolUseShim: bool)

  const MaxLogLines: nat := 20

  function ShimSegment(enabled: bool): string {
    if enabled then "shim_enabled" else "shim_disabled"
  }

  /** Where the full log of a run is kept. */
  function LogPath(outputDir: string, taskId: string, llm: LLMConfig): (r: string)
    ensures outputDir != "" && taskId != "" ==>
      r == outputDir + "/" + taskId + "/" + ShimSegment(llm.enableToolUseShim) + "-" + llm.providerId + "-" + llm.modelId
  {
    JoinPath(JoinPath(outputDir, taskId), ShimSegment(llm.enableToolUseShim) + "-" + llm.providerId + "-" + llm.modelId)
  }

  function TruncationNote(path: string): string {
    "\n... (log truncated, full log at " + path + ")"
  }

  /** The failure message of a verifier that failed with `err`. */
  function VerifierFailureMessage(err: string, log: string, outputDir: string, taskId: string, llm: LLMConfig): (m: string)
    ensures var base := "verifier script failed: " + err + "\n---LOG---\n" + GetLastNLines(log, MaxLogLines).0;
      (|Split(log, '\n')| > MaxLogLines ==> m == base + TruncationNote(LogPath(outputDir, taskId, llm))) &&
      (|Split(log, '\n')| <= MaxLogLines ==> m == base && GetLastNLines(log, MaxLogLines).0 == log)
  {
    var (tail, truncated) := GetLastNLines(log, MaxLogLines);
    var m := "verifier script failed: " + err + "\n---LOG---\n" + tail;
    if truncated then m + TruncationNote(LogPath(outputDir, taskId, llm)) else m
  }

  // ---------------------------------------------------------------------
  // Evaluating one task
  // ---------------------------------------------------------------------

  datatype Task = Task(timeout: string, expectations: seq<Expectation>, verifier: string, disabled: bool)

  datatype TaskResult = TaskResult(task: string, result: string, error: string, failures: seq<Failure>)

  /** How the agent run ended: with its output, past the deadline, or with
      another error. */
  datatype AgentOutcome = Finished(output: string) | DeadlineExceeded | Crashed(message: string)

  /** What the environment answered along the way: the task directory's
      absolute path (or its error), the setup error if any, the error of the
      first script prompt the agent runner could not resolve, the agent's run,
      the verifier's error if it failed, and the captured log. */
  datatype TaskRun = TaskRun(
    absolute: Result<string, string>,
    setupError: Option<string>,
    promptError: Option<string>,
    agent: AgentOutcome,
    verifierError: Option<string>,
    log: string)

  /** The failure the agent runner adds to the result while feeding the
      script's prompts, before the agent's outcome is known. */
  function PromptFailures(run: TaskRun): (r: seq<Failure>)
    ensures |r| <= 1
    ensures r != [] <==> run.promptError.Some?
    ensures r != [] ==> r[0] == PromptUnresolved(run.promptError.value)
  {
    if run.promptError.Some? then [PromptUnresolved(run.promptError.value)] else []
  }

  /** The failures the verifier step adds. */
  function VerifierFailures(task: Task, run: TaskRun, outputDir: string, taskId: string, llm: LLMConfig): (r: seq<Failure>)
    ensures |r| <= 1
    ensures r != [] <==> task.verifier != "" && run.verifierError.Some?
    ensures r != [] ==> r[0].VerifierScriptFailed?
  {
    if task.verifier != "" && run.verifierError.Some? then
      [VerifierScriptFailed(VerifierFailureMessage(run.verifierError.value, run.log, outputDir, taskId, llm))]
    else []
  }

  /** `evaluateTask`, with every external effect supplied by `run`. */
  method EvaluateTask(maxAgent: int, outputDir: string, taskId: string, task: Task, llm: LLMConfig, run: TaskRun,
                      parse: string -> Result<int, string>, compiles: string -> bool, matches: (string, string) -> bool)
    returns (result: TaskResult)
    ensures result.task == taskId
    ensures var t := EffectiveTimeout(maxAgent, task.timeout, parse);
      (t.Err? ==> result == TaskResult(taskId, "fail", "parsing timeout: " + t.error, [])) &&
      (t.Ok? && run.absolute.Err? ==> result == TaskResult(taskId, "fail", run.absolute.error, [])) &&
      (t.Ok? && run.absolute.Ok? && run.setupError.Some? ==>
         result == TaskResult(taskId, "", run.setupError.value, [])) &&
      (t.Ok? && run.absolute.Ok? && run.setupError.None? && run.agent.DeadlineExceeded? ==>
         result == TaskResult(taskId, "fail", "", PromptFailures(run) + [TimedOut(t.value)])) &&
      (t.Ok? && run.absolute.Ok? && run.setupError.None? && run.agent.Crashed? ==>
         result == TaskResult(taskId, "", run.agent.message, PromptFailures(run)))
    ensures EffectiveTimeout(maxAgent, task.timeout, parse).Ok? && run.absolute.Ok? && run.setupError.None? && run.agent.Finished? ==>
      var fs := ExpectationFailures(task.expectations, LastCommandOutput(run.agent.output), compiles, matches);
      var v := Verdict(|task.expectations|, fs, task.verifier != "" && run.verifierError.None?,
                       PromptFailures(run) + VerifierFailures(task, run, outputDir, taskId, llm));
      result == TaskResult(taskId, v.0, "", v.1)
  {
    result := TaskResult(taskId, "", "", []);
    var timeout := EffectiveTimeout(maxAgent, task.timeout, parse);
    if timeout.Err? {
      result := result.(result := "fail", error := "parsing timeout: " + timeout.error);
      return;
    }
    if run.absolute.Err? {
      result := result.(result := "fail", error := run.absolute.error);
      return;
    }
    if run.setupError.Some? {
      result := result.(error := run.setupError.value);
      return;
    }
    result := result.(failures := result.failures + PromptFailures(run));
    match run.agent {
      case DeadlineExceeded =>
        result := result.(result := "fail", failures := result.failures + [TimedOut(timeout.value)]);
        return;
      case Crashed(message) =>
        result := result.(error := message);
        return;
      case Finished(_) =>
    }
    result := JudgeRun(outputDir, taskId, task, llm, run, compiles, matches);
  }

  /** The end of `evaluateTask` once the agent has finished: the
      expectations, the verifier and the verdict. */
  method JudgeRun(outputDir: string, taskId: string, task: Task, llm: LLMConfig, run: TaskRun,
                  compiles: string -> bool, matches: (string, string) -> bool)
    returns (result: TaskResult)
    requires run.agent.Finished?
    ensures var fs := ExpectationFailures(task.expectations, LastCommandOutput(run.agent.output), compiles, matches);
      var v := Verdict(|task.expectations|, fs, task.verifier != "" && run.verifierError.None?,
                       PromptFailures(run) + VerifierFailures(task, run, outputDir, taskId, llm));
      result == TaskResult(taskId, v.0, "", v.1)
  {
    var expectationFailures := ExpectationStep(task.expectations, run.agent.output, compiles, matches);
    var verifierSucceeded, verifierFailures := VerifierStep(outputDir, taskId, task, llm, run);
    var failures := PromptFailures(run) + verifierFailures;
    var expectationsMet := |task.expectations| > 0 && |expectationFailures| == 0;
    if verifierSucceeded || expectationsMet {
      result := TaskResult(taskId, "success", "", failures);
    } else {
      result := TaskResult(taskId, "fail", "", failures + expectationFailures);
    }
  }

  /** The expectation block of `evaluateTask`: skipped without expectations,
      otherwise the loop over them on the last command's output. */
  method ExpectationStep(es: seq<Expectation>, output: string, compiles: string -> bool, matches: (string, string) -> bool)
    returns (failures: seq<Failure>)
    ensures failures == ExpectationFailures(es, LastCommandOutput(output), compiles, matches)
  {
    failures := [];
    if |es| > 0 {
      var checked := LastCommandOutput(output);
      failures := CheckExpectations(es, checked, compiles, matches);
    }
  }

  /** The verifier block of `evaluateTask`. */
  method VerifierStep(outputDir: string, taskId: string, task: Task, llm: LLMConfig, run: TaskRun)
    returns (succeeded: bool, failures: seq<Failure>)
    ensures succeeded == (task.verifier != "" && run.verifierError.None?)
    ensures failures == VerifierFailures(task, run, outputDir, taskId, llm)
  {
    succeeded := false;
    failures := [];
    if task.verifier != "" {
      if run.verifierError.None? {
        succeeded := true;
      } else {
        var message := VerifierFailureMessage(run.verifierError.value, run.log, outputDir, taskId, llm);
        failures := failures + [VerifierScriptFailed(message)];
      }
    }
  }

  /** The expectation loop of `evaluateTask`. */
  method CheckExpectations(es: seq<Expectation>, out: string, compiles: string -> bool, matches: (string, string) -> bool)
    returns (failures: seq<Failure>)
    ensures failures == ExpectationFailures(es, out, compiles, matches)
  {
    failures := [];
    var i := 0;
    while i < |es|
      invariant 0 <= i <= |es|
      invariant failures == ExpectationFailures(es[..i], out, compiles, matches)
    {
      assert es[..i + 1][..i] == es[..i];
      var e := es[i];
      if e.contains != "" {
        if !compiles(e.contains) {
          failures := failures + [InvalidRegex(e.contains)];
        } else if !matches(e.contains, out) {
          failures := failures + [NoMatch(e.contains, out)];
        }
      }
      i := i + 1;
    }
    assert es[..i] == es;
  }

  // ---------------------------------------------------------------------
  // Loading tasks
  // ---------------------------------------------------------------------

  datatype LoadError = PatternInvalid(pattern: string) | ReadDirError | TaskFileError(id: string)

  /** The entries `loadTasks` reads a task file for: directories whose name
      passes the filter, when there is one. */
  predicate Selected(e: DirEntry, pattern: string, matches: (string, string) -> bool) {
    e.isDir && (pattern == "" || matches(pattern, e.name))
  }

  /** The first selected entry whose task file cannot be read or parsed, or
      the length when there is none. */
  function FirstFailedRead(es: seq<DirEntry>, pattern: string, matches: (string, string) -> bool,
                           readTask: string -> Result<Task, string>, from: nat): (r: nat)
    requires from <= |es|
    ensures from <= r <= |es|
    ensures forall k :: from <= k < r ==> !(Selected(es[k], pattern, matches) && readTask(es[k].name).Err?)
    ensures r < |es| ==> Selected(es[r], pattern, matches) && readTask(es[r].name).Err?
    decreases |es| - from
  {
    if from == |es| then from
    else if Selected(es[from], pattern, matches) && readTask(es[from].name).Err? then from
    else FirstFailedRead(es, pattern, matches, readTask, from + 1)
  }

  /** The task map after the entries, up to the first failed read. */
  function Loaded(es: seq<DirEntry>, pattern: string, matches: (string, string) -> bool,
                  readTask: string -> Result<Task, string>): (r: map<string, Task>)
    ensures forall id :: id in r ==> !r[id].disabled
  {
    if |es| == 0 then map[]
    else
      var m := Loaded(es[..|es| - 1], pattern, matches, readTask);
      var e := es[|es| - 1];
      if Selected(e, pattern, matches) && readTask(e.name).Ok? && !readTask(e.name).value.disabled
      then m[e.name := readTask(e.name).value]
      else m
  }

  /** The loaded tasks are exactly the selected, enabled task directories,
      each under its own name with the task read from its file. */
  lemma {:induction false} LoadedTasks(es: seq<DirEntry>, pattern: string, matches: (string, string) -> bool,
                                       readTask: string -> Result<Task, string>)
    ensures var m := Loaded(es, pattern, matches, readTask);
      (forall id :: id in m <==> exists k :: 0 <= k < |es| && es[k].name == id &&
                                    Selected(es[k], pattern, matches) && readTask(id).Ok? && !readTask(id).value.disabled) &&
      (forall id :: id in m ==> readTask(id) == Ok(m[id]))
  {
    if |es| > 0 {
      var init := es[..|es| - 1];
      LoadedTasks(init, pattern, matches, readTask);
      assert forall k :: 0 <= k < |init| ==> init[k] == es[k];
    }
  }

  /** `loadTasks`, with the directory listing and the task files supplied. */
  method LoadTasks(pattern: string, entries: Result<seq<DirEntry>, string>, compiles: string -> bool,
                   matches: (string, string) -> bool, readTask: string -> Result<Task, string>)
    returns (r: Result<map<string, Task>, LoadError>)
    ensures pattern != "" && !compiles(pattern) ==> r == Err(PatternInvalid(pattern))
    ensures (pattern == "" || compiles(pattern)) && entries.Err? ==> r == Err(ReadDirError)
    ensures (pattern == "" || compiles(pattern)) && entries.Ok? ==>
      var es := entries.value;
      var k := FirstFailedRead(es, pattern, matches, readTask, 0);
      (k < |es| ==> r == Err(TaskFileError(es[k].name))) &&
      (k == |es| ==> r == Ok(Loaded(es, pattern, matches, readTask)))
  {
    if pattern != "" && !compiles(pattern) {
      return Err(PatternInvalid(pattern));
    }
    if entries.Err? {
      return Err(ReadDirError);
    }
    var es := entries.value;
    ghost var k := FirstFailedRead(es, pattern, matches, readTask, 0);
    var tasks: map<string, Task> := map[];
    var i := 0;
    while i < |es|
      invariant 0 <= i <= k
      invariant tasks == Loaded(es[..i], pattern, matches, readTask)
    {
      assert es[..i + 1][..i] == es[..i];
      var entry := es[i];
      i := i + 1;
      if !entry.isDir {
        continue;
      }
      var taskId := entry.name;
      if pattern != "" && !matches(pattern, taskId) {
        continue;
      }
      var task := readTask(taskId);
      if task.Err? {
        return Err(TaskFileError(taskId));
      }
      if task.value.disabled {
        continue;
      }
      tasks := tasks[taskId := task.value];
    }
    assert es[..i] == es;
    r := Ok(tasks);
  }

  // ---------------------------------------------------------------------
  // Copying the task workspace
  // ---------------------------------------------------------------------

  datatype EntryKind = Directory | RegularFile | OtherKind

  /** One entry of the walk of the task directory: its path relative to the
      root as a list of elements (empty for the root), its kind and mode. */
  datatype WalkEntry = WalkEntry(rel: seq<string>, kind: EntryKind, mode: bv32)

  /** What `copyTaskWorkspace` does at one entry, relative to the target. */
  datatype CopyAction = MakeDir(rel: seq<string>, mode: bv32) | WriteFile(rel: seq<string>, mode: bv32)

  const UserWrite: bv32 := 0x80  // 0200

  predicate Excluded(base: string) {
    base == "verify.sh" || base == "cleanup.sh" || base == "task.yaml"
  }

  /** The root and the harness's own scripts are not copied. */
  predicate SkippedEntry(e: WalkEntry) {
    e.rel == [] || Excluded(e.rel[|e.rel| - 1])
  }

  function CopyActionFor(e: WalkEntry): (a: Option<CopyAction>)
    ensures a.Some? <==> !SkippedEntry(e) && e.kind != OtherKind
    ensures a.Some? ==> a.value.rel == e.rel
    ensures a.Some? && a.value.WriteFile? ==> e.kind == RegularFile && a.value.mode == e.mode | UserWrite
    ensures a.Some? && a.value.MakeDir? ==> e.kind == Directory && a.value.mode == e.mode
  {
    if SkippedEntry(e) then None
    else match e.kind
      case Directory => Some(MakeDir(e.rel, e.mode))
      case RegularFile => Some(WriteFile(e.rel, e.mode | UserWrite))
      case OtherKind => None
  }

  /** The actions the walk performs, in walk order. */
  function CopyPlan(walk: seq<WalkEntry>): (r: seq<CopyAction>)
    ensures |r| <= |walk|
  {
    if |walk| == 0 then []
    else
      var a := CopyActionFor(walk[|walk| - 1]);
      CopyPlan(walk[..|walk| - 1]) + (if a.Some? then [a.value] else [])
  }

  /** No copied entry is the root or one of the excluded files, and every
      copied file is writable by its owner. */
  lemma {:induction false} CopyPlanSafe(walk: seq<WalkEntry>)
    ensures var p := CopyPlan(walk);
      forall k :: 0 <= k < |p| ==>
        p[k].rel != [] && !Excluded(p[k].rel[|p[k].rel| - 1]) &&
        (p[k].WriteFile? ==> p[k].mode & UserWrite == UserWrite)
  {
    if |walk| > 0 {
      CopyPlanSafe(walk[..|walk| - 1]);
      var e := walk[|walk| - 1];
      var a := CopyActionFor(e);
      if a.Some? {
        assert e.rel != [] && !Excluded(e.rel[|e.rel| - 1]);
        assert a.value.WriteFile? ==> a.value.mode & UserWrite == UserWrite by {
          if a.value.WriteFile? {
            assert (e.mode | UserWrite) & UserWrite == UserWrite;
          }
        }
        var p := CopyPlan(walk);
        assert p == CopyPlan(walk[..|walk| - 1]) + [a.value];
      }
    }
  }

  /** The walk of `copyTaskWorkspace`, without its I/O errors. */
  method CopyTaskWorkspace(walk: seq<WalkEntry>) returns (actions: seq<CopyAction>)
    ensures actions == CopyPlan(walk)
  {
    actions := [];
    var i := 0;
    while i < |walk|
      invariant 0 <= i <= |walk|
      invariant actions == CopyPlan(walk[..i])
    {
      assert walk[..i + 1][..i] == walk[..i];
      var e := walk[i];
      if e.rel != [] {
        var base := e.rel[|e.rel| - 1];
        if !Excluded(base) {
          if e.kind == Directory {
            actions := actions + [MakeDir(e.rel, e.mode)];
          } else if e.kind == RegularFile {
            actions := actions + [WriteFile(e.rel, e.mode | UserWrite)];
          }
        }
      }
      i := i + 1;
    }
    assert walk[..i] == walk;
  }
}
