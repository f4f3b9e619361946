/**
 * runner.py's run_task and main: one run cycle over the task store.
 *
 * The cycle reads the settings, finds the store, splits it at the reference
 * time `now`, runs every due task in store order and writes back only the
 * tasks that are not yet due, whatever each task's outcome was.
 *
 * The environment is passed in: the parsed settings file (None when it does
 * not exist), the existing store files by path (already parsed), the time,
 * and the external process runner. A cycle returns what it reported and the
 * store rewrite it performed, if any.
 */
module Runner {
  import opened Wrappers
  import opened Schedule
  import opened Shell
  import opened Commands

  /** settings.json once parsed: the value of its `last_csv_path` key, if the key is there. */
  datatype Settings = Settings(lastCsvPath: Option<string>)

  /**
   * The external process runner. It is given the number of commands issued
   * earlier in the cycle and the command, and returns what the process did.
   */
  type ProcessRunner = (nat, string) -> ProcessResult

  /** What run_task reports for one task: the command it ran and its outcome, or an unknown-action warning. */
  datatype Report = Ran(command: string, outcome: Outcome) | UnknownAction(action: string)

  /** How a cycle ended; Completed carries the number of due tasks it ran. */
  datatype Exit = NoSettings | NoStore | NothingDue | Completed(dueCount: nat)

  /** Overwriting the store file at `path` with `tasks`. */
  datatype Rewrite = Rewrite(path: string, tasks: seq<Task>)

  datatype Cycle = Cycle(exit: Exit, reports: seq<Report>, rewrite: Option<Rewrite>)

  /** `r` is what running `t` reports: its command for a known action, a warning naming the action otherwise. */
  predicate Reports(t: Task, r: Report)
  {
    match r
    case Ran(cmd, _) => CommandOf(t) == Some(cmd)
    case UnknownAction(action) => CommandOf(t) == None && action == t.action
  }

  /**
   * run_task: a known action issues its one command, invocation number
   * `issued`, and classifies the result; an unknown action issues nothing.
   */
  function RunTask(t: Task, issued: nat, run: ProcessRunner): (r: Report)
    ensures Reports(t, r)
    ensures r.Ran? ==> r.outcome == Classify(run(issued, r.command))
  {
    match Dispatch(t)
    case None => UnknownAction(t.action)
    case Some(c) =>
      var cmd := Render(c);
      Ran(cmd, Classify(run(issued, cmd)))
  }

  /** How many processes a report stands for. */
  function Spawned(r: Report): nat
  {
    if r.Ran? then 1 else 0
  }

  /** Running `tasks` one after another, the first process being invocation number `issued`. */
  function RunAll(tasks: seq<Task>, issued: nat, run: ProcessRunner): seq<Report>
  {
    if tasks == [] then []
    else
      var r := RunTask(tasks[0], issued, run);
      [r] + RunAll(tasks[1..], issued + Spawned(r), run)
  }

  /** The commands `tasks` ask for, known actions only, in order; no process result is involved. */
  function CommandsOf(tasks: seq<Task>): seq<string>
  {
    if tasks == [] then []
    else
      (match CommandOf(tasks[0]) case Some(c) => [c] case None => []) + CommandsOf(tasks[1..])
  }

  /** The commands that a sequence of reports says were run. */
  function Issued(reports: seq<Report>): seq<string>
  {
    if reports == [] then []
    else (if reports[0].Ran? then [reports[0].command] else []) + Issued(reports[1..])
  }

  /** The store path main accepts: the settings name one, it is not empty and the file exists. */
  function StorePath(settings: Settings, files: map<string, seq<Task>>): (p: Option<string>)
    ensures p.Some? <==>
      (settings.lastCsvPath.Some? && settings.lastCsvPath.value != "" && settings.lastCsvPath.value in files)
    ensures p.Some? ==> p == settings.lastCsvPath
  {
    match settings.lastCsvPath
    case None => None
    case Some(path) => if path != "" && path in files then Some(path) else None
  }

  /** What one cycle does, stated on values. */
  function CycleSpec(settings: Option<Settings>, files: map<string, seq<Task>>, now: int, run: ProcessRunner): Cycle
  {
    match settings
    case None => Cycle(NoSettings, [], None)
    case Some(st) =>
      match StorePath(st, files)
      case None => Cycle(NoStore, [], None)
      case Some(path) =>
        var store := files[path];
        var due := Due(store, now);
        if due == [] then Cycle(NothingDue, [], None)
        else Cycle(Completed(|due|), RunAll(due, 0, run), Some(Rewrite(path, Pending(store, now))))
  }

  /**
   * main: the early returns, the split, the loop that runs each due task and
   * the rewrite of the store with the tasks that are not yet due.
   */
  method RunCycle(settings: Option<Settings>, files: map<string, seq<Task>>, now: int, run: ProcessRunner)
    returns (c: Cycle)
    ensures c == CycleSpec(settings, files, now, run)
  {
    if settings.None? {
      return Cycle(NoSettings, [], None);
    }
    var csvPath := settings.value.lastCsvPath;
    if csvPath.None? || csvPath.value == "" || csvPath.value !in files {
      return Cycle(NoStore, [], None);
    }
    var path := csvPath.value;
    var df := files[path];
    var dueTasks := Due(df, now);
    if |dueTasks| == 0 {
      return Cycle(NothingDue, [], None);
    }
    var reports: seq<Report> := [];
    var issued: nat := 0;
    for i := 0 to |dueTasks|
      invariant reports + RunAll(dueTasks[i..], issued, run) == RunAll(dueTasks, 0, run)
    {
      var report := RunTask(dueTasks[i], issued, run);
      RunAllFrom(dueTasks, i, issued, run);
      reports := reports + [report];
      issued := issued + Spawned(report);
    }
    assert dueTasks[|dueTasks|..] == [];
    var remaining := Pending(df, now);
    c := Cycle(Completed(|dueTasks|), reports, Some(Rewrite(path, remaining)));
  }

  // ---------------------------------------------------------------------
  // Running the due tasks

  /** Running the tasks from index i on is running task i, then the ones after it. */
  lemma RunAllFrom(tasks: seq<Task>, i: nat, issued: nat, run: ProcessRunner)
    requires i < |tasks|
    ensures var r := RunTask(tasks[i], issued, run);
      RunAll(tasks[i..], issued, run) == [r] + RunAll(tasks[i + 1..], issued + Spawned(r), run)
  {
    assert tasks[i..][0] == tasks[i] && tasks[i..][1..] == tasks[i + 1..];
  }

  lemma {:induction false} RunAllLength(tasks: seq<Task>, issued: nat, run: ProcessRunner)
    ensures |RunAll(tasks, issued, run)| == |tasks|
  {
    if tasks != [] {
      RunAllLength(tasks[1..], issued + Spawned(RunTask(tasks[0], issued, run)), run);
    }
  }

  /** One report per task, the i-th report being task i's. */
  lemma {:induction false} RunAllReportsEach(tasks: seq<Task>, issued: nat, run: ProcessRunner)
    ensures |RunAll(tasks, issued, run)| == |tasks|
    ensures forall i :: 0 <= i < |tasks| ==> Reports(tasks[i], RunAll(tasks, issued, run)[i])
  {
    if tasks != [] {
      var r := RunTask(tasks[0], issued, run);
      var rest := RunAll(tasks[1..], issued + Spawned(r), run);
      RunAllReportsEach(tasks[1..], issued + Spawned(r), run);
      assert RunAll(tasks, issued, run) == [r] + rest;
      forall i | 0 <= i < |tasks| ensures Reports(tasks[i], RunAll(tasks, issued, run)[i]) {
        if i > 0 {
          assert tasks[i] == tasks[1..][i - 1];
          assert RunAll(tasks, issued, run)[i] == rest[i - 1];
        }
      }
    }
  }

  /** A stock unfolding of Issued, stated so the induction below need not search for it. */
  lemma IssuedFirst(r: Report, rest: seq<Report>)
    ensures Issued([r] + rest) == (if r.Ran? then [r.command] else []) + Issued(rest)
  {
    assert ([r] + rest)[1..] == rest;
  }

  /** The commands run are the commands the tasks ask for, in order. */
  lemma {:induction false} RunAllIssues(tasks: seq<Task>, issued: nat, run: ProcessRunner)
    ensures Issued(RunAll(tasks, issued, run)) == CommandsOf(tasks)
  {
    if tasks != [] {
      var r := RunTask(tasks[0], issued, run);
      var rest := RunAll(tasks[1..], issued + Spawned(r), run);
      RunAllIssues(tasks[1..], issued + Spawned(r), run);
      assert RunAll(tasks, issued, run) == [r] + rest;
      IssuedFirst(r, rest);
      assert Reports(tasks[0], r);
    }
  }

  /**
   * Every task is run exactly once and in order: one report per task, the
   * i-th report belongs to the i-th task, and the commands run are the
   * commands the tasks ask for.
   */
  lemma RunAllRunsEachOnce(tasks: seq<Task>, issued: nat, run: ProcessRunner)
    ensures |RunAll(tasks, issued, run)| == |tasks|
    ensures forall i :: 0 <= i < |tasks| ==> Reports(tasks[i], RunAll(tasks, issued, run)[i])
    ensures Issued(RunAll(tasks, issued, run)) == CommandsOf(tasks)
  {
    RunAllReportsEach(tasks, issued, run);
    RunAllIssues(tasks, issued, run);
  }

  /**
   * The processes are invoked with consecutive numbers: the i-th task, when
   * its action is known, is invocation number `issued` plus the number of
   * commands the tasks before it ask for, and its outcome classifies that
   * invocation's result.
   */
  lemma {:induction false} RunAllInvocationOrder(tasks: seq<Task>, issued: nat, run: ProcessRunner, i: nat)
    requires i < |tasks|
    ensures |RunAll(tasks, issued, run)| == |tasks|
    ensures var r := RunAll(tasks, issued, run)[i];
      r.Ran? ==> r.outcome == Classify(run(issued + |CommandsOf(tasks[..i])|, r.command))
  {
    RunAllLength(tasks, issued, run);
    if i == 0 {
      assert tasks[..0] == [];
    } else {
      var k := issued + Spawned(RunTask(tasks[0], issued, run));
      RunAllInvocationOrder(tasks[1..], k, run, i - 1);
      RunAllTail(tasks, issued, run, i);
    }
  }

  /** Report i > 0 of a run is report i - 1 of the run of the later tasks, whose first invocation number is counted on. */
  lemma RunAllTail(tasks: seq<Task>, issued: nat, run: ProcessRunner, i: nat)
    requires 0 < i < |tasks|
    ensures var k := issued + Spawned(RunTask(tasks[0], issued, run));
      && |RunAll(tasks, issued, run)| == |tasks|
      && |RunAll(tasks[1..], k, run)| == |tasks| - 1
      && RunAll(tasks, issued, run)[i] == RunAll(tasks[1..], k, run)[i - 1]
      && k + |CommandsOf(tasks[1..][..i - 1])| == issued + |CommandsOf(tasks[..i])|
  {
    var r0 := RunTask(tasks[0], issued, run);
    var k := issued + Spawned(r0);
    RunAllLength(tasks, issued, run);
    RunAllLength(tasks[1..], k, run);
    assert RunAll(tasks, issued, run) == [r0] + RunAll(tasks[1..], k, run);
    CommandsOfPrefix(tasks, i);
    assert Reports(tasks[0], r0);
  }

  lemma CommandsOfPrefix(tasks: seq<Task>, i: nat)
    requires 0 < i <= |tasks|
    ensures |CommandsOf(tasks[..i])|
      == (if CommandOf(tasks[0]).Some? then 1 else 0) + |CommandsOf(tasks[1..][..i - 1])|
  {
    assert tasks[..i][0] == tasks[0];
    assert tasks[..i][1..] == tasks[1..][..i - 1];
  }

  /**
   * No outcome changes what runs: with any two process runners the same
   * commands are issued and each task gets the same kind of report.
   */
  lemma OutcomesDoNotChangeWhatRuns(tasks: seq<Task>, run1: ProcessRunner, run2: ProcessRunner)
    ensures Issued(RunAll(tasks, 0, run1)) == Issued(RunAll(tasks, 0, run2))
    ensures |RunAll(tasks, 0, run1)| == |RunAll(tasks, 0, run2)| == |tasks|
    ensures forall i :: 0 <= i < |tasks| ==>
      RunAll(tasks, 0, run1)[i].Ran? == RunAll(tasks, 0, run2)[i].Ran?
  {
    RunAllRunsEachOnce(tasks, 0, run1);
    RunAllRunsEachOnce(tasks, 0, run2);
  }

  // ---------------------------------------------------------------------
  // The cycle

  /**
   * Without a settings file, or without a usable last_csv_path, the cycle
   * ends before any store is read or written: it runs nothing, rewrites
   * nothing, and its result is the same whatever the store files hold.
   */
  lemma ConfigFailureTouchesNoStore(settings: Option<Settings>, files1: map<string, seq<Task>>,
                                    files2: map<string, seq<Task>>, now: int, run1: ProcessRunner, run2: ProcessRunner)
    requires settings.None? || settings.value.lastCsvPath.None? || settings.value.lastCsvPath.value == ""
    ensures CycleSpec(settings, files1, now, run1) == CycleSpec(settings, files2, now, run2)
    ensures var c := CycleSpec(settings, files1, now, run1);
      && c.exit == (if settings.None? then NoSettings else NoStore)
      && c.reports == [] && c.rewrite.None?
  {
  }

  /** A last_csv_path naming no existing file ends the cycle with nothing run and nothing written. */
  lemma MissingStoreTouchesNoStore(settings: Settings, files: map<string, seq<Task>>, now: int, run: ProcessRunner)
    requires settings.lastCsvPath.Some? && settings.lastCsvPath.value !in files
    ensures CycleSpec(Some(settings), files, now, run) == Cycle(NoStore, [], None)
  {
  }

  /**
   * When nothing is due the cycle writes nothing, so the store keeps its
   * content; even a rewrite would have kept every task.
   */
  lemma NothingDueLeavesStore(settings: Settings, files: map<string, seq<Task>>, now: int, run: ProcessRunner)
    requires StorePath(settings, files).Some?
    requires Due(files[StorePath(settings, files).value], now) == []
    ensures CycleSpec(Some(settings), files, now, run) == Cycle(NothingDue, [], None)
    ensures Pending(files[StorePath(settings, files).value], now) == files[StorePath(settings, files).value]
  {
    NothingDueKeepsAll(files[StorePath(settings, files).value], now);
  }

  /**
   * A cycle with due tasks runs each of them once, in store order, and
   * rewrites the store at the settings path with exactly the tasks after
   * `now`, in store order: the store is split into the due tasks run and the
   * tasks kept, and no due task is kept.
   */
  lemma CompletedCycle(settings: Settings, files: map<string, seq<Task>>, now: int, run: ProcessRunner)
    requires StorePath(settings, files).Some?
    requires Due(files[StorePath(settings, files).value], now) != []
    ensures var path := StorePath(settings, files).value;
      var store := files[path];
      var due := Due(store, now);
      var c := CycleSpec(Some(settings), files, now, run);
      && c.exit == Completed(|due|)
      && |c.reports| == |due|
      && (forall i :: 0 <= i < |due| ==> Reports(due[i], c.reports[i]))
      && Issued(c.reports) == CommandsOf(due)
      && c.rewrite == Some(Rewrite(path, Pending(store, now)))
      && Interleaves(store, due, c.rewrite.value.tasks)
      && (forall t :: t in c.rewrite.value.tasks ==> t in store && t.time > now)
      && multiset(due) + multiset(c.rewrite.value.tasks) == multiset(store)
  {
    var store := files[StorePath(settings, files).value];
    RunAllRunsEachOnce(Due(store, now), 0, run);
    PartitionSplits(store, now);
    PartitionMultiset(store, now);
  }

  /**
   * Drop-regardless-of-outcome: how a cycle ends, which commands it issues
   * and what it writes back do not depend on any process result.
   */
  lemma RewriteIgnoresOutcomes(settings: Option<Settings>, files: map<string, seq<Task>>, now: int,
                               run1: ProcessRunner, run2: ProcessRunner)
    ensures var c1 := CycleSpec(settings, files, now, run1);
      var c2 := CycleSpec(settings, files, now, run2);
      c1.exit == c2.exit && c1.rewrite == c2.rewrite && Issued(c1.reports) == Issued(c2.reports)
  {
    if settings.Some? && StorePath(settings.value, files).Some? {
      var store := files[StorePath(settings.value, files).value];
      OutcomesDoNotChangeWhatRuns(Due(store, now), run1, run2);
    }
  }

  /** At most once: after a rewrite, a second cycle at the same time finds nothing due. */
  lemma SecondCycleFindsNothingDue(settings: Settings, files: map<string, seq<Task>>, now: int,
                                   run1: ProcessRunner, run2: ProcessRunner)
    requires CycleSpec(Some(settings), files, now, run1).rewrite.Some?
    ensures var w := CycleSpec(Some(settings), files, now, run1).rewrite.value;
      CycleSpec(Some(settings), files[w.path := w.tasks], now, run2) == Cycle(NothingDue, [], None)
  {
    var path := StorePath(settings, files).value;
    PendingIdempotent(files[path], now);
  }

  // ---------------------------------------------------------------------
  // Scenarios

  const Path: string := "tasks.csv"

  function Succeeds(k: nat, cmd: string): ProcessResult
  {
    ProcessResult(0, "ok", "")
  }

  /** Scenario A: one overdue `disable jdoe` is run, succeeds, and the store is rewritten empty. */
  lemma ScenarioOverdueDisable()
    ensures var files := map[Path := [Task("jdoe", "disable", "", 100)]];
      CycleSpec(Some(Settings(Some(Path))), files, 200, Succeeds)
      == Cycle(Completed(1), [Ran("Disable-ADAccount -Identity \"jdoe\"", Success("ok"))],
               Some(Rewrite(Path, [])))
  {
    var t := Task("jdoe", "disable", "", 100);
    assert Due([t], 200) == [t] && Pending([t], 200) == [];
    assert CommandOf(t) == Some("Disable-ADAccount -Identity \"jdoe\"") by {
      assert DisablePrefix + "jdoe" + Closing == "Disable-ADAccount -Identity \"jdoe\"";
    }
    assert RunAll([t], 0, Succeeds) == [RunTask(t, 0, Succeeds)] + RunAll([], 1, Succeeds);
  }

  /** Scenario B: of one due and one future task only the future one is written back, unchanged. */
  lemma ScenarioOneDueOneFuture()
    ensures var future := Task("bwong", "disable", "", 300);
      var files := map[Path := [Task("asmith", "enable", "", 100), future]];
      var c := CycleSpec(Some(Settings(Some(Path))), files, 200, Succeeds);
      c.exit == Completed(1) && c.rewrite == Some(Rewrite(Path, [future]))
  {
    var due := Task("asmith", "enable", "", 100);
    var future := Task("bwong", "disable", "", 300);
    var store := [due, future];
    assert store[1..] == [future] && [future][1..] == [];
    assert Due(store, 200) == [due];
    assert Pending(store, 200) == [future];
  }

  /** Scenario C: without a settings file the cycle ends at once. */
  lemma ScenarioNoSettings(files: map<string, seq<Task>>, now: int, run: ProcessRunner)
    ensures CycleSpec(None, files, now, run) == Cycle(NoSettings, [], None)
  {
  }

  /** Scenario D: an unknown action is warned about, runs nothing, and is dropped. */
  lemma ScenarioUnknownAction(run: ProcessRunner)
    ensures var files := map[Path := [Task("jdoe", "archive", "", 100)]];
      CycleSpec(Some(Settings(Some(Path))), files, 200, run)
      == Cycle(Completed(1), [UnknownAction("archive")], Some(Rewrite(Path, [])))
  {
    var t := Task("jdoe", "archive", "", 100);
    assert Due([t], 200) == [t] && Pending([t], 200) == [];
    assert Dispatch(t) == None;
    assert RunAll([t], 0, run) == [RunTask(t, 0, run)] + RunAll([], 0, run);
  }

  function FailsSecond(k: nat, cmd: string): ProcessResult
  {
    if k == 1 then ProcessResult(1, "", "denied") else ProcessResult(0, "", "")
  }

  /** Isolation: of three due tasks the second one fails, and the third still runs and succeeds. */
  lemma ScenarioSecondOfThreeFails(a: Task, b: Task, c: Task)
    requires a.action == "disable" && b.action == "disable" && c.action == "enable"
    ensures var reports := RunAll([a, b, c], 0, FailsSecond);
      && |reports| == 3
      && reports[1].Ran? && reports[1].outcome == Error("denied")
      && reports[2].Ran? && reports[2].outcome.Success?
  {
    var tasks := [a, b, c];
    var r0 := RunTask(a, 0, FailsSecond);
    var r1 := RunTask(b, 1, FailsSecond);
    var r2 := RunTask(c, 2, FailsSecond);
    assert r0.Ran? && r1.Ran? && r2.Ran?;
    assert tasks[1..] == [b, c] && [b, c][1..] == [c] && [c][1..] == [];
    assert RunAll([c], 2, FailsSecond) == [r2];
    assert RunAll([b, c], 1, FailsSecond) == [r1, r2];
  }

  /** A task due exactly at `now` counts as due. */
  lemma ScenarioDueAtNow(run: ProcessRunner)
    ensures var files := map[Path := [Task("jdoe", "enable", "", 200)]];
      CycleSpec(Some(Settings(Some(Path))), files, 200, run).exit == Completed(1)
  {
  }
}
