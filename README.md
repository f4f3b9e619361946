# Scheduled Active Directory task runner — Dafny model

This project models the task runner of ActiveDirectoryScheduler (`runner.py`).
An operator queues directory actions in a CSV task store. Each action disables
or enables an account, or adds a user to a group or removes one. Each task has a
scheduled time. A periodic run of the runner does four things:

1. It finds the store through `settings.json`.
2. It picks the tasks whose time has come.
3. It issues one PowerShell command per task with a known action, and prints
   whether each command succeeded.
4. It rewrites the store with only the tasks that are not yet due, whatever
   each command's outcome was.

Modules, one per component of the runner:

- `Wrappers` (wrappers.dfy): `Option`.
- `Schedule` (schedule.dfy): a store row `Task(user, action, value, time)` and
  the due/pending split at the reference time `now` (`Due`, `Pending`). The
  lemmas show that the split keeps order and that it is the only such split.
- `Shell` (shell.dfy): what the PowerShell process returns, `run_powershell`'s
  success/error classification, and the `.strip()` applied to the text it
  prints.
- `Quoting` (quoting.dfy): reading double-quoted fields back out of a command
  line. It supplies the inverse of the command builders.
- `Commands` (commands.dfy): the four command builders (`Render`), the
  `run_task` dispatch on the action column (`Dispatch`), and a parser (`Parse`).
  The parser is proved to invert the builders for arguments that contain no
  double quote. A lemma shows that arguments containing quotes can make two
  different calls issue the same text.
- `Runner` (runner.dfy): `run_task` (`RunTask`), the cycle as a specification
  function (`CycleSpec`), and `main` as a method with a loop (`RunCycle`) that
  is proved equal to it. The lemmas cover each terminal state, the
  drop-regardless-of-outcome policy, and some worked scenarios.

What the model takes as inputs:

- Timestamps are integers.
- `datetime.now()` is the parameter `now`.
- `settings.json`, once parsed, is `Option<Settings>`. `None` means the file
  does not exist.
- The existing store files, already parsed, are a `map<string, seq<Task>>`.
  A path is in the map exactly when it exists.
- The external process is a total function `ProcessRunner`. It takes the
  number of commands issued earlier in the cycle and the command text, and
  returns the return code, stdout and stderr. A test double can therefore fail
  any chosen invocation.

A cycle returns a `Cycle` value with three parts:

- how the cycle ended: `NoSettings`, `NoStore`, `NothingDue`, or
  `Completed(n)`, which is the "Running n task(s)" case;
- one `Report` per due task: `Ran(command, outcome)` or `UnknownAction(action)`;
- the store rewrite (path and contents), or `None` if nothing is written.

Facts about the code that the model keeps:

- The action names are `disable`, `enable`, `addtogroup` and
  `removefromgroup`, the values the editor's combobox offers. Any other
  spelling, `add_to_group` for one, is an unknown action.
- There is no empty-`value` check for the group actions. A group command is
  issued even when the group name is empty (`Commands.GroupActionsNeedNoValue`).
- An unknown action is not a failure outcome. `run_task` logs and prints a
  warning and issues nothing. The task is still dropped from the store.
- `main` returns normally on every path. `Exit` records which message was
  printed. It is not a process exit status.

## Model

| member | source | states |
|---|---|---|
| `Schedule.Due` | runner.py:83 | a task is in the due list iff it is in the store and its time is `<= now` (equality counts as due) |
| `Schedule.Pending` | runner.py:97 | a task is kept iff it is in the store and its time is `> now` |
| `Schedule.PartitionSplits` | runner.py:83-97 | the store is an order-keeping merge of the due and the kept tasks; every due task is `<= now`, every kept one `> now` |
| `Schedule.PartitionUnique` | runner.py:83-97 | any order-keeping merge of the store into `<= now` tasks and `> now` tasks is exactly (Due, Pending) |
| `Schedule.InterleavesMultiset` | runner.py:83-97 | an order-keeping merge neither loses nor duplicates a task (multiset union) |
| `Schedule.PartitionMultiset` | runner.py:83-97 | due plus kept tasks are the store as a multiset, and their counts add up to the store's |
| `Schedule.NothingDueKeepsAll` | runner.py:85-97 | when nothing is due, the tasks to keep are the whole store |
| `Schedule.PendingIdempotent` | runner.py:97 | filtering the kept tasks again keeps all of them, and none of them is due |
| `Shell.LeadingSpaces` | runner.py:23-27 | the count of leading whitespace that `.strip()` removes: all of it whitespace, the next character not |
| `Shell.TrailingSpaces` | runner.py:23-27 | the count of trailing whitespace that `.strip()` removes: all of it whitespace, the character before it not |
| `Shell.StripSlice` | runner.py:23-27 | stripped text is one contiguous slice of the original; only whitespace is dropped, and neither end of the result is whitespace |
| `Shell.StripIdempotent` | runner.py:23-27 | stripping twice equals stripping once |
| `Shell.Strip` | runner.py:23-27 | Python's `.strip()` on the process output; its contract is `Shell.StripSlice` (one contiguous slice, only whitespace dropped, neither end whitespace) and `Shell.StripIdempotent` |
| `Shell.Classify` | runner.py:22-27 | the outcome is an error iff the return code is non-zero; an error carries stderr, a success carries stdout |
| `Shell.ConsoleLineOfProcess` | runner.py:22-27 | the printed line is `[ERROR] ` plus stripped stderr for a non-zero code, and `[SUCCESS] ` plus stripped stdout otherwise |
| `Shell.ConsoleLine` | runner.py:22-27 | the `[ERROR] `/`[SUCCESS] ` line `run_powershell` prints at runner.py:24 and 27, tag plus stripped stream; its contract is `Shell.ConsoleLineOfProcess` |
| `Commands.Render` | runner.py:29-43 | the four command builders: its four cases are the f-string templates at runner.py:31, 35, 39 and 43, arguments placed between double quotes verbatim; its contract is `Commands.ParseRender` and `Commands.RenderParse` (parsing inverts it for quote-free arguments) and `Commands.RenderInjective` |
| `Commands.Dispatch` | runner.py:45-62 | a task gets a builder call iff its action is one of the four known names; the call carries the task's user, its action name is the task's, and a group call's group is the task's value |
| `Commands.CommandOf` | runner.py:45-62 | the command `run_task` issues for a row, or none for an unknown action; its contract is `Commands.Dispatch` composed with `Commands.Render`, and `Commands.AccountActionsIgnoreValue`/`Commands.GroupActionsNeedNoValue` |
| `Commands.DispatchReachesEveryCall` | runner.py:52-59 | every builder call, with any arguments, is what some task dispatches to |
| `Commands.AccountActionsIgnoreValue` | runner.py:52-55 | for `disable` and `enable`, changing the value column does not change the command |
| `Commands.GroupActionsNeedNoValue` | runner.py:56-59 | the group actions issue a command whatever the value, the empty string included |
| `Commands.ParseRender` | runner.py:29-43 | parsing a command built from quote-free arguments gives back the builder call and its arguments |
| `Commands.RenderParse` | runner.py:29-43 | every text the parser accepts is exactly a builder's output for quote-free arguments |
| `Commands.RenderInjective` | runner.py:29-43 | with quote-free arguments, two different calls never issue the same command |
| `Commands.UnescapedQuotesCollide` | runner.py:37-39 | arguments go between quotes verbatim: a group name holding `" -Members "` and a user name holding it give two different calls with one command text |
| `Commands.DisableCommandExample` | runner.py:29-62 | `disable jdoe` issues `Disable-ADAccount -Identity "jdoe"`; a removal ends in `-Confirm:$false`; `archive` issues nothing |
| `Runner.RunTask` | runner.py:45-62 | a known action runs its one command and classifies the process result; an unknown action runs nothing and reports a warning naming the action |
| `Runner.StorePath` | runner.py:75-79 | the cycle goes on to read a store iff `last_csv_path` is present, non-empty and names an existing file |
| `Runner.RunAll` | runner.py:93-94 | the loop over the due rows, one `run_task` each in store order; its contract is `Runner.RunAllRunsEachOnce`, `Runner.RunAllInvocationOrder` and `Runner.OutcomesDoNotChangeWhatRuns` |
| `Runner.RunAllRunsEachOnce` | runner.py:93-94 | one report per due task, the i-th for the i-th task, and the commands run are those the tasks ask for, in store order |
| `Runner.RunAllInvocationOrder` | runner.py:93-94 | processes are started in task order: task i's command is invocation number (commands before it), and its outcome classifies that invocation |
| `Runner.OutcomesDoNotChangeWhatRuns` | runner.py:93-94 | with any two process behaviours the same commands run and each task gets the same kind of report: a failure never stops later tasks |
| `Runner.CycleSpec` | runner.py:64-100 | `main` as a value: the early returns, the due/kept split, the runs and the rewrite; its contract is `Runner.RunCycle` (the loop equals it) and the terminal-state lemmas below |
| `Runner.RunCycle` | runner.py:64-100 | `main` — early returns, split, the loop over the due tasks and the rewrite — produces exactly the cycle `CycleSpec` describes |
| `Runner.ConfigFailureTouchesNoStore` | runner.py:67-79 | without settings, or with a missing or empty `last_csv_path`, the cycle ends as NoSettings/NoStore, runs nothing, writes nothing, and does not depend on any store's content |
| `Runner.MissingStoreTouchesNoStore` | runner.py:76-79 | a `last_csv_path` that names no existing file ends the cycle as NoStore with nothing run or written |
| `Runner.NothingDueLeavesStore` | runner.py:83-88 | when no task is due the cycle ends as NothingDue without a rewrite, so the store is unchanged |
| `Runner.CompletedCycle` | runner.py:83-98 | with due tasks, each runs once in store order, and the store at the settings path is rewritten with exactly the `> now` tasks in order; due and kept tasks split the store |
| `Runner.RewriteIgnoresOutcomes` | runner.py:93-98 | the terminal state, the commands issued and the rewrite are the same whatever the processes return |
| `Runner.SecondCycleFindsNothingDue` | runner.py:83-98 | after a rewrite, a second cycle at the same `now` finds nothing due: no task runs twice |
| `Runner.ScenarioOverdueDisable` | runner.py:64-100 | one overdue `disable jdoe`: the disable command runs, succeeds, and the store is rewritten empty |
| `Runner.ScenarioOneDueOneFuture` | runner.py:83-98 | one due and one future task: only the future task is written back, unchanged |
| `Runner.ScenarioNoSettings` | runner.py:67-70 | no settings file: the cycle ends at once with nothing run or written |
| `Runner.ScenarioUnknownAction` | runner.py:60-62 | a due `archive` task produces a warning, runs nothing, and is dropped from the store |
| `Runner.ScenarioSecondOfThreeFails` | runner.py:20-27 | of three due tasks the second command fails, yet the third still runs and succeeds |
| `Runner.ScenarioDueAtNow` | runner.py:83 | a task scheduled exactly at `now` is run |

## Left out

- Process spawning (`subprocess.run`) is not modelled. The process is the
  `ProcessRunner` parameter. A process that hangs or raises is not modelled.
- Logging to `task_runner.log` and the console messages of `main` and `run_task`
  are not modelled as text. The only printed line that is modelled is
  `run_powershell`'s `[SUCCESS]`/`[ERROR]` line (`Shell.ConsoleLine`). The
  terminal message is represented by `Exit`, and the per-task warning by
  `UnknownAction`.
- JSON parsing of `settings.json` is not modelled. A malformed settings file
  raises in the source and is not modelled either. `last_csv_path` is
  modelled as an optional string. Non-string JSON values and Python
  truthiness of those values are not modelled.
- CSV reading and writing by pandas are not modelled. The store is an
  already-parsed `seq<Task>`, and the rewrite is the sequence that is written.
  These cases are not modelled: a file that exists but cannot be parsed, a path
  that is a directory, and the exception `read_csv` would raise. Also not
  modelled: an empty `value` cell, which pandas reads as NaN and which would
  reach a group command as the text `nan`.
- `datetime.now()` is the parameter `now`. Timestamps are integers, so two
  cases of the `datetime` column are not modelled. When a cell cannot be parsed
  as a date, `read_csv` leaves the whole column as strings. The `<=` of
  runner.py:83 then raises `TypeError`, and the cycle aborts before any task
  runs and before the store is rewritten. When a cell is empty, it becomes
  NaT. Both comparisons with NaT are false, so that row is neither run nor
  kept, and a completed cycle deletes it from the store.
- Concurrent edits of the CSV by the editor during a cycle are not modelled.
  Nor is an interrupted or non-atomic overwrite.
- Shell.IsSpace: the whitespace is ASCII whitespace only (space, `\t` to `\r`,
  `\x1c` to `\x1f`). Python's `str.strip()` also removes Unicode whitespace.
  This affects `Shell.LeadingSpaces`, `Shell.TrailingSpaces`, `Shell.Strip`,
  `Shell.StripSlice`, `Shell.StripIdempotent` and `Shell.ConsoleLine`.
- The editor application (`application.py`) is not part of this model.
