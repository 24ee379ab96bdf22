/** The `__main__` block of `centralizer.py`: check the stored expiry; when
    it has passed, run the collection script and stamp a new expiry; then run
    the main script.

    Every effect is an input. A script run is its `subprocess.run` outcome,
    the two clock readings (one inside the expiry check, one inside the
    update, after the collection script has run) are separate date-times,
    and the `.env` file is its text. `collect_info.py` is written to store
    the new refresh token in `.env` with `set_key`; as written it stops at
    the undefined name `webdrive`, exits non-zero and leaves `.env`
    unchanged. The text it leaves is therefore one more input, and the
    update appends to that text.

    Only the `CalledProcessError` of a non-zero exit is caught by
    `execute_script`; any other exception (a malformed stored expiry, the
    date overflow of the update, an interpreter that cannot be launched)
    escapes and ends the run: no later step begins. */
module RunPlan {
  import opened Results
  import opened DateTimes
  import opened StampCodec
  import opened Centralizer

  const CollectScript: string := "collect_info.py"
  const MainScript: string := "main.py"

  /** What `subprocess.run(["python", script], check=True)` did: the child
      exited with a status, or no child could be started (an `OSError`). */
  datatype ProcessOutcome = Exited(code: int) | LaunchFailed

  datatype Step = Collect | UpdateExpiry | RunMain

  /** The exceptions that escape the `__main__` block. */
  datatype Fault =
    | ExpiryCheckFailed(parseError: StampError)
    | ExpiryUpdateFailed(overflow: Overflow)
    | ScriptNotLaunched(script: string)

  /** Everything the run depends on. */
  datatype Inputs = Inputs(
    stored: Option<string>,     // os.getenv("REFRESH_TOKEN_EXPIRATION")
    checkTime: DateTime,        // datetime.now() inside the expiry check
    updateTime: DateTime,       // datetime.now() inside the update
    env: string,                // the .env text before the run
    collect: ProcessOutcome,    // the collection script's run
    collectedEnv: string,       // the .env text the collection script leaves, once it has exited
    main: ProcessOutcome)       // the main script's run

  predicate ValidInputs(i: Inputs) {
    Valid(i.checkTime) && Valid(i.updateTime)
  }

  /** What the run did: the steps it began, in order; the `.env` text it
      left; the scripts whose non-zero exit it reported and carried on past;
      and the exception that ended it, if one did. */
  datatype Report = Report(started: seq<Step>, env: string, reported: seq<string>, fault: Option<Fault>)

  /** `execute_script(script)`: `Success(true)` when the script exited 0,
      `Success(false)` when a non-zero exit was reported and swallowed, and
      a failure when the interpreter could not be launched. */
  function ExecuteScript(script: string, outcome: ProcessOutcome): (r: Result<bool, Fault>)
    ensures r.Success? <==> outcome.Exited?
    ensures r == Success(true) <==> outcome == Exited(0)
    ensures r.Failure? ==> r.error == ScriptNotLaunched(script)
  {
    match outcome
    case Exited(code) => Success(code == 0)
    case LaunchFailed => Failure(ScriptNotLaunched(script))
  }

  /** The script named once if its run exited with a non-zero status. */
  function Failed(script: string, outcome: ProcessOutcome): seq<string> {
    if outcome.Exited? && outcome.code != 0 then [script] else []
  }

  /** The steps the run takes given the expiry verdict. */
  function Plan(expired: bool): (p: seq<Step>)
    ensures |p| > 0 && p[|p| - 1] == RunMain
    ensures forall k :: 0 <= k < |p| - 1 ==> p[k] != RunMain
    ensures Collect in p <==> expired
    ensures UpdateExpiry in p <==> expired
  {
    if expired then [Collect, UpdateExpiry, RunMain] else [RunMain]
  }

  /** The script a step runs, if it runs one. */
  function ScriptOf(step: Step, i: Inputs): Option<(string, ProcessOutcome)> {
    match step
    case Collect => Some((ScriptName(step), i.collect))
    case RunMain => Some((ScriptName(step), i.main))
    case UpdateExpiry => None
  }

  /** The script file a script step runs. */
  function ScriptName(step: Step): string
    requires step != UpdateExpiry
  {
    if step == Collect then CollectScript else MainScript
  }

  /** The step whose exception `f` is. */
  predicate RaisedBy(f: Fault, step: Step) {
    match f
    case ExpiryCheckFailed(_) => false
    case ExpiryUpdateFailed(_) => step == UpdateExpiry
    case ScriptNotLaunched(script) => step != UpdateExpiry && script == ScriptName(step)
  }

  /** One step of the run, started from `rep`. */
  function Perform(step: Step, rep: Report, i: Inputs): (r: Report)
    requires ValidInputs(i)
    ensures r.started == rep.started + [step]
  {
    var rep := rep.(started := rep.started + [step]);
    match step
    case UpdateExpiry =>
      (match UpdateRefreshTokenExpiration(rep.env, i.updateTime)
       case Success(env) => rep.(env := env)
       case Failure(e) => rep.(fault := Some(ExpiryUpdateFailed(e))))
    case _ =>
      var (script, outcome) := ScriptOf(step, i).value;
      match ExecuteScript(script, outcome)
      case Failure(f) => rep.(fault := Some(f))
      case Success(ok) =>
        var rep := if step == Collect then rep.(env := i.collectedEnv) else rep;
        if ok then rep else rep.(reported := rep.reported + [script])
  }

  /** An exception a step raises is one of that step's own. */
  lemma PerformRaises(step: Step, rep: Report, i: Inputs)
    requires ValidInputs(i) && rep.fault.None?
    ensures var r := Perform(step, rep, i);
      r.fault.Some? ==> RaisedBy(r.fault.value, r.started[|r.started| - 1])
  {
    var r := Perform(step, rep, i);
    assert r.started[|r.started| - 1] == step;
  }

  /** Runs `steps` in order from `rep`, stopping at the first escaping
      exception. The steps begun are always a prefix of `steps`; with no
      exception, all of them. */
  function RunSteps(steps: seq<Step>, rep: Report, i: Inputs): (r: Report)
    requires ValidInputs(i) && rep.fault.None?
    ensures |rep.started| <= |r.started| <= |rep.started| + |steps|
    ensures r.started == rep.started + steps[..|r.started| - |rep.started|]
    ensures r.fault.None? ==> r.started == rep.started + steps
    ensures r.fault.Some? ==> |r.started| > |rep.started|
    decreases |steps|
  {
    if |steps| == 0 then rep
    else
      var next := Perform(steps[0], rep, i);
      if next.fault.Some? then
        assert steps[..1] == [steps[0]];
        next
      else
        var r := RunSteps(steps[1..], next, i);
        assert steps[..|r.started| - |rep.started|] == [steps[0]] + steps[1..][..|r.started| - |next.started|];
        r
  }

  /** An escaping exception was raised by the last step begun: nothing runs
      after the step that raised. */
  lemma {:induction false} RunStepsStopsAtFault(steps: seq<Step>, rep: Report, i: Inputs)
    requires ValidInputs(i) && rep.fault.None?
    ensures var r := RunSteps(steps, rep, i);
      r.fault.Some? ==> RaisedBy(r.fault.value, r.started[|r.started| - 1])
    decreases |steps|
  {
    if |steps| > 0 {
      var next := Perform(steps[0], rep, i);
      if next.fault.Some? {
        PerformRaises(steps[0], rep, i);
      } else {
        RunStepsStopsAtFault(steps[1..], next, i);
      }
    }
  }

  /** The verdict the run acts on, or the exception of the check. */
  function Verdict(i: Inputs): Result<bool, StampError>
    requires ValidInputs(i)
  {
    IsRefreshTokenExpired(i.stored, i.checkTime)
  }

  /** The steps of the plan for a verdict, run from an untouched report. */
  function Execute(expired: bool, i: Inputs): (r: Report)
    requires ValidInputs(i)
    ensures |r.started| <= |Plan(expired)| && r.started == Plan(expired)[..|r.started|]
    ensures r.fault.None? ==> r.started == Plan(expired)
  {
    var r := RunSteps(Plan(expired), Report([], i.env, [], None), i);
    assert [] + Plan(expired)[..|r.started|] == Plan(expired)[..|r.started|];
    assert [] + Plan(expired) == Plan(expired);
    r
  }

  /** An escaping exception ends the plan at the step that raised it. */
  lemma ExecuteStopsAtFault(expired: bool, i: Inputs)
    requires ValidInputs(i)
    ensures var r := Execute(expired, i);
      r.fault.Some? ==> |r.started| > 0 && RaisedBy(r.fault.value, r.started[|r.started| - 1])
  {
    var r0 := Report([], i.env, [], None);
    RunStepsStopsAtFault(Plan(expired), r0, i);
    assert Execute(expired, i) == RunSteps(Plan(expired), r0, i);
  }

  /** The whole `__main__` block. */
  function Run(i: Inputs): (r: Report)
    requires ValidInputs(i)
    ensures Verdict(i).Failure? ==>
      r.started == [] && r.env == i.env && r.fault == Some(ExpiryCheckFailed(Verdict(i).error))
    ensures Verdict(i).Success? ==> r == Execute(Verdict(i).value, i)
  {
    match Verdict(i)
    case Failure(e) => Report([], i.env, [], Some(ExpiryCheckFailed(e)))
    case Success(expired) => Execute(expired, i)
  }

  /** With a verdict of "still valid", only the main script runs and the
      `.env` text is left alone; the run ends early only if the interpreter
      cannot be launched. */
  lemma NotExpiredRunsMainOnly(i: Inputs)
    requires ValidInputs(i)
    ensures Execute(false, i).started == [RunMain]
    ensures Execute(false, i).env == i.env
    ensures Execute(false, i).fault.None? <==> i.main.Exited?
    ensures i.main.LaunchFailed? ==> Execute(false, i).fault == Some(ScriptNotLaunched(MainScript))
    ensures Execute(false, i).fault.None? ==> Execute(false, i).reported == Failed(MainScript, i.main)
  {
    var rep := Report([], i.env, [], None);
    var n := Perform(RunMain, rep, i);
    assert [RunMain][1..] == [];
    if n.fault.None? {
      assert RunSteps([], n, i) == n;
    }
  }

  /** A script step: it ends the run exactly when the interpreter cannot be
      launched, and otherwise reports a non-zero exit. Once the collection
      script has exited, `.env` holds the text it left; the main script
      leaves `.env` alone. */
  lemma ScriptStep(step: Step, rep: Report, i: Inputs)
    requires ValidInputs(i) && step != UpdateExpiry
    ensures var (script, outcome) := ScriptOf(step, i).value;
      var r := Perform(step, rep, i);
      && (outcome.Exited? ==> r.fault == rep.fault && r.reported == rep.reported + Failed(script, outcome))
      && (outcome.Exited? ==> r.env == if step == Collect then i.collectedEnv else rep.env)
      && (outcome.LaunchFailed? ==> r.fault == Some(ScriptNotLaunched(script)) && r.env == rep.env)
  {
  }

  /** The update step: it ends the run exactly when the stamp overflows, and
      otherwise leaves the text the update produced. */
  lemma UpdateStep(rep: Report, i: Inputs)
    requires ValidInputs(i)
    ensures var r := Perform(UpdateExpiry, rep, i);
      var update := UpdateRefreshTokenExpiration(rep.env, i.updateTime);
      && r.reported == rep.reported
      && (update.Success? ==> r.fault == rep.fault && r.env == update.value)
      && (update.Failure? ==> r.fault == Some(ExpiryUpdateFailed(update.error)) && r.env == rep.env)
  {
  }

  /** The expired plan unrolled: the run is the report of the first of its
      three steps that raised, or of the last step. */
  lemma ExpiredSteps(i: Inputs)
    requires ValidInputs(i)
    ensures var r1 := Perform(Collect, Report([], i.env, [], None), i);
      var r2 := Perform(UpdateExpiry, r1, i);
      var r3 := Perform(RunMain, r2, i);
      Execute(true, i) == if r1.fault.Some? then r1 else if r2.fault.Some? then r2 else r3
  {
    var plan := [Collect, UpdateExpiry, RunMain];
    var r0 := Report([], i.env, [], None);
    var r1 := Perform(Collect, r0, i);
    assert Execute(true, i) == RunSteps(plan, r0, i);
    if r1.fault.None? {
      assert plan[1..] == [UpdateExpiry, RunMain];
      assert RunSteps(plan, r0, i) == RunSteps([UpdateExpiry, RunMain], r1, i);
      var r2 := Perform(UpdateExpiry, r1, i);
      if r2.fault.None? {
        assert [UpdateExpiry, RunMain][1..] == [RunMain];
        assert RunSteps([UpdateExpiry, RunMain], r1, i) == RunSteps([RunMain], r2, i);
        var r3 := Perform(RunMain, r2, i);
        assert [RunMain][1..] == [];
        if r3.fault.None? {
          assert RunSteps([RunMain], r2, i) == RunSteps([], r3, i) == r3;
        }
      }
    }
  }

  /** With a verdict of "expired", the run collects, appends a new expiry
      stamped from the update's clock reading to the text the collection
      script left, and runs the main script, in that order. It ends early
      only if a script cannot be launched or the stamp overflows, and a
      non-zero exit of either script is only reported. */
  lemma ExpiredRunsCollectUpdateMain(i: Inputs)
    requires ValidInputs(i)
    ensures Execute(true, i).fault.None?
        <==> && i.collect.Exited?
             && UpdateRefreshTokenExpiration(i.collectedEnv, i.updateTime).Success?
             && i.main.Exited?
    ensures Execute(true, i).fault.None? ==>
        && Execute(true, i).started == [Collect, UpdateExpiry, RunMain]
        && Execute(true, i).env == UpdateRefreshTokenExpiration(i.collectedEnv, i.updateTime).value
        && Execute(true, i).reported == Failed(CollectScript, i.collect) + Failed(MainScript, i.main)
  {
    var r0 := Report([], i.env, [], None);
    var r1 := Perform(Collect, r0, i);
    var r2 := Perform(UpdateExpiry, r1, i);
    ExpiredSteps(i);
    ScriptStep(Collect, r0, i);
    UpdateStep(r1, i);
    ScriptStep(RunMain, r2, i);
    assert [] + Failed(CollectScript, i.collect) == Failed(CollectScript, i.collect);
  }

  /** With a verdict of "expired", an escaping exception stops the run at
      the step that raised it: no later step begins, and `.env` keeps the
      text it had when that step began. */
  lemma ExpiredRunStopsAtFault(i: Inputs)
    requires ValidInputs(i)
    ensures i.collect.LaunchFailed? ==>
        && Execute(true, i).started == [Collect]
        && Execute(true, i).env == i.env
        && Execute(true, i).fault == Some(ScriptNotLaunched(CollectScript))
    ensures i.collect.Exited? && UpdateRefreshTokenExpiration(i.collectedEnv, i.updateTime).Failure? ==>
        && Execute(true, i).started == [Collect, UpdateExpiry]
        && Execute(true, i).env == i.collectedEnv
        && Execute(true, i).fault == Some(ExpiryUpdateFailed(DateValueOutOfRange))
    ensures && i.collect.Exited?
            && UpdateRefreshTokenExpiration(i.collectedEnv, i.updateTime).Success?
            && i.main.LaunchFailed? ==>
        && Execute(true, i).started == [Collect, UpdateExpiry, RunMain]
        && Execute(true, i).env == UpdateRefreshTokenExpiration(i.collectedEnv, i.updateTime).value
        && Execute(true, i).fault == Some(ScriptNotLaunched(MainScript))
  {
    if i.collect.LaunchFailed? {
      CollectNotLaunched(i);
    } else if UpdateRefreshTokenExpiration(i.collectedEnv, i.updateTime).Failure? {
      UpdateOverflowed(i);
    } else if i.main.LaunchFailed? {
      MainNotLaunched(i);
    }
  }

  /** The collection script cannot be launched: nothing else begins. */
  lemma CollectNotLaunched(i: Inputs)
    requires ValidInputs(i) && i.collect.LaunchFailed?
    ensures Execute(true, i) == Report([Collect], i.env, [], Some(ScriptNotLaunched(CollectScript)))
  {
    var r0 := Report([], i.env, [], None);
    assert Perform(Collect, r0, i).fault.Some?;
    assert Execute(true, i) == RunSteps([Collect, UpdateExpiry, RunMain], r0, i);
  }

  /** The new stamp overflows: the main script does not begin, and `.env`
      holds what the collection script left. */
  lemma UpdateOverflowed(i: Inputs)
    requires ValidInputs(i) && i.collect.Exited?
    requires ToMicros(i.updateTime) + MicrosPerHour > ToMicros(Latest)
    ensures Execute(true, i).started == [Collect, UpdateExpiry]
    ensures Execute(true, i).env == i.collectedEnv
    ensures Execute(true, i).fault == Some(ExpiryUpdateFailed(DateValueOutOfRange))
  {
    var r1 := Perform(Collect, Report([], i.env, [], None), i);
    ExpiredSteps(i);
    ScriptStep(Collect, Report([], i.env, [], None), i);
    UpdateStep(r1, i);
  }

  /** The main script cannot be launched, after a successful update. */
  lemma MainNotLaunched(i: Inputs)
    requires ValidInputs(i) && i.collect.Exited? && i.main.LaunchFailed?
    requires ToMicros(i.updateTime) + MicrosPerHour <= ToMicros(Latest)
    ensures Execute(true, i).started == [Collect, UpdateExpiry, RunMain]
    ensures Execute(true, i).env == UpdateRefreshTokenExpiration(i.collectedEnv, i.updateTime).value
    ensures Execute(true, i).fault == Some(ScriptNotLaunched(MainScript))
  {
    var r1 := Perform(Collect, Report([], i.env, [], None), i);
    var r2 := Perform(UpdateExpiry, r1, i);
    CollectedAndStamped(i);
    ScriptStep(RunMain, r2, i);
    ExpiredSteps(i);
  }

  /** The collection script exited and the stamp fits: after the first two
      steps nothing has escaped and `.env` holds the stamped text. */
  lemma CollectedAndStamped(i: Inputs)
    requires ValidInputs(i) && i.collect.Exited?
    requires ToMicros(i.updateTime) + MicrosPerHour <= ToMicros(Latest)
    ensures var r1 := Perform(Collect, Report([], i.env, [], None), i);
      var r2 := Perform(UpdateExpiry, r1, i);
      && r1.fault.None? && r2.fault.None?
      && r2.env == UpdateRefreshTokenExpiration(i.collectedEnv, i.updateTime).value
  {
    var r0 := Report([], i.env, [], None);
    ScriptStep(Collect, r0, i);
    UpdateStep(Perform(Collect, r0, i), i);
  }

  /** Whatever the verdict, when nothing escapes the main script has run,
      it ran last, and it ran once. */
  lemma MainRunsLast(expired: bool, i: Inputs)
    requires ValidInputs(i) && Execute(expired, i).fault.None?
    ensures var s := Execute(expired, i).started;
      |s| > 0 && s[|s| - 1] == RunMain && forall k :: 0 <= k < |s| - 1 ==> s[k] != RunMain
  {
  }

  /** The run ends without an escaping exception exactly when the stored
      expiry is absent, empty or well-formed, every script the plan runs can
      be launched, and, on the expired path, the update's clock reading is at
      least an hour before the end of year 9999. */
  lemma RunCompletes(i: Inputs)
    requires ValidInputs(i)
    ensures Run(i).fault.None? <==>
      && Verdict(i).Success?
      && i.main.Exited?
      && (Verdict(i).value ==>
            i.collect.Exited? && ToMicros(i.updateTime) + MicrosPerHour <= ToMicros(Latest))
  {
    if Verdict(i).Success? {
      NotExpiredRunsMainOnly(i);
      ExpiredRunsCollectUpdateMain(i);
    }
  }

  /** Two inputs that differ only in the exit statuses of the scripts. */
  predicate SameButExitCodes(a: Inputs, b: Inputs) {
    && a.(collect := b.collect, main := b.main) == b
    && a.collect.Exited? == b.collect.Exited?
    && a.main.Exited? == b.main.Exited?
  }

  /** Reports that agree on everything but the reported script failures. */
  predicate SameButReported(a: Report, b: Report) {
    a.(reported := b.reported) == b
  }

  /** Executing the same steps from reports that agree up to the reported
      failures, under inputs that differ only in exit statuses, begins the
      same steps, writes the same `.env` text and ends the same way. */
  lemma {:induction false} StepsIgnoreExitCodes(steps: seq<Step>, ra: Report, rb: Report, a: Inputs, b: Inputs)
    requires ValidInputs(a) && ValidInputs(b) && SameButExitCodes(a, b)
    requires ra.fault.None? && SameButReported(ra, rb)
    ensures SameButReported(RunSteps(steps, ra, a), RunSteps(steps, rb, b))
    decreases |steps|
  {
    if |steps| > 0 {
      var na, nb := Perform(steps[0], ra, a), Perform(steps[0], rb, b);
      assert SameButReported(na, nb);
      if na.fault.None? {
        StepsIgnoreExitCodes(steps[1..], na, nb, a, b);
      }
    }
  }

  /** A non-zero exit of either script never changes which steps run, what
      is written to `.env`, or whether the run ends early: `execute_script`
      swallows it. */
  lemma ExitCodesNeverStopTheRun(a: Inputs, b: Inputs)
    requires ValidInputs(a) && ValidInputs(b) && SameButExitCodes(a, b)
    ensures Run(a).started == Run(b).started
    ensures Run(a).env == Run(b).env
    ensures Run(a).fault == Run(b).fault
  {
    if Verdict(a).Success? {
      assert Verdict(a) == Verdict(b);
      StepsIgnoreExitCodes(Plan(Verdict(a).value), Report([], a.env, [], None), Report([], b.env, [], None), a, b);
    }
  }
}
