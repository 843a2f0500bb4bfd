# Verified model of the GameAP daemon's schedulers, command output and server sync

The daemon runs tasks that a control panel hands out. This project models five of its parts and
proves what they keep over whole runs.

- **Task scheduler** (`GdaemonTasks`). A first-in-first-out queue with `run_aft_id` dependencies, an
  admission set, and two maps from task to command block and to child process. `GdaemonModel` holds
  the steps as functions on values and the log of the calls to the outside; `GdaemonTasks` is the
  class with the fields updated in place, every method tied to its step; `GdaemonInvariant`,
  `GdaemonTrace`, `GdaemonSafety` and `GdaemonLiveness` prove the properties of its runs.
  `GdaemonCalls` says for every run, in the terms of the panel's entries and of the polls, what each
  call does: the names of the tasks, the numbers of the statuses and the texts stand there as such.
- **Recurring scheduler** (`ServersTasks`). A priority queue of shared records, whose keys are edited
  while a record is queued. `ServersHeap` has `CompareTask` and the queue's contract, `ServersModel`
  the steps, `ServersTasks` the class (the queue is a binary heap of record objects),
  `ServersInvariant`, `ServersBlocking` and `ServersHistory` the proofs. `ServersCalls` and
  `ServersOutcomes` say what each call does in the terms of the panel's records and of the polls.
- **String replacement** (`GString`, `Shortcodes`, `Numerals`). The in-place loop of `str_replace`, path
  slashes, the passes that fill the shortcodes of a command line, and the decimal texts of numbers.
- **Command output** (`IpcCmdOutput`). The overwriting ring buffer between a child and the scheduler.
- **Server sync** (`ServersSync`, `GameServersList`). Panel edits against local writes by time stamp,
  over runs of both sides; the class with the records updated in place, tied to those runs by
  `GameServersList.Serve`; and the overlay of server variables.

`Commands` holds what both schedulers share: what a poll of a child shows, and the bookkeeping of
blocks and pids.

## Reading the model

- A run of a scheduler is a sequence of steps as the loops of `src/daemon.cpp` make them: updates with
  any reply of the panel, and `run_next` with anything the polled child may show, skipped on an empty
  queue. Method calls are atomic steps. The methods `CheckTasks` show that the classes go through
  exactly the states of `Run`.
- `Cmd* cmd` in `GdaemonTasks::start` is uninitialised in the source; the model starts it as null,
  which is what the null check that follows is for. Memory mapping and `fork` succeed, and blocks and
  processes are numbered in order of creation, so a number is never used twice.
- In the task scheduler SUCCESS is sound and not complete: a command whose flag `is_complete()` is
  seen before its process has been reaped ends as ERROR. Two tasks on one server may run at once.
- For the recurring scheduler the panel reads back what `sync_to_api` last wrote, in the same time
  zone; a read may fail at any time, a write does not. `repeat` is cut to 16 bits as in the source, and
  `counter` wraps at 32. The arrangement of the heap after a push or a pop is any the library may
  produce. As in the source, `start` runs a RESTART whatever the task's command, the time of the last
  refresh is never renewed while an entry exists, and an exhausted task that is dropped stays in
  `exists_tasks`. Since WAITING sorts before WORKING a waiting task of the future holds up working
  ones (`ServersBlocking.HeldUp`, with a reachable case in `HeldUpReachable`), so no liveness is claimed
  there; `ServersBlocking.PolledIff` says exactly when a call polls a working task.
- Where the source does not do what one would expect, the model follows the source, gives an input
  that shows it, and says exactly when the source does what it should:
  - one pass leaves double slashes (`GString.ThreeSlashesStayTwo`, `GString.NormalisedIff`);
  - after an overflow the output is rotated (`IpcCmdOutput.OverflowIsOutOfOrder`,
    `IpcCmdOutput.InOrderIff`), and drains lose output (`IpcCmdOutput.DrainLosesOutput`,
    `IpcCmdOutput.DrainsConserveIff`);
  - a value put in for a shortcode may itself be replaced (`Shortcodes.BracedValueIsRescanned`); a
    server's built-in values are safe from it, with all brace-free variables, exactly if they do not
    hold both kinds of brace (`Shortcodes.ServerLawIff`), and so are they together with variables
    whose values hold braces, against one more brace-free pass (`Shortcodes.OwnValuesIff`);
  - panel edits can be lost: in the second of a local write (`ServersSync.SameSecondEditIsLost`), and
    when the stamps are rewritten before the edit is read (`ServersSync.RewriteLosesEdit`).
    `ServersSync.EditTakenIff` says for every run when the next sync shows the last edit,
    `ServersSync.LastWriterWins` when it shows the last writer's install status, and
    `ServersSync.LostForGood` that a row skipped once stays skipped;
  - tasks that wait for each other stay for ever (`GdaemonLiveness.SelfWaiterIsDoomed`,
    `GdaemonLiveness.ExactlyTheDoomedStay`);
  - the second number of `stats`, named for waiting tasks, counts the working ones too
    (`GdaemonInvariant.WorkingCountsAsWaiting`, `GdaemonInvariant.StatsCount`).

## Model

| member | source | states |
|---|---|---|
| GdaemonTasks.GdaemonTasks.RunNext | src/classes/gdaemon_tasks.cpp:14-44 | the whole new state of one call on a non-empty queue is the step `RunNext`; no task object is aliased in the queue |
| GdaemonTasks.GdaemonTasks.Start | src/classes/gdaemon_tasks.cpp:204-270 | new state, new task status and the outside calls in order, for the seven known kinds and for an unknown one |
| GdaemonTasks.GdaemonTasks.Proceed | src/classes/gdaemon_tasks.cpp:299-349 | new state, new status and outside calls for every poll, with the "Fail" return and the missing-pid branch |
| GdaemonTasks.GdaemonTasks.BeforeCmd | src/classes/gdaemon_tasks.cpp:272-279 | the install status set before an installation or update |
| GdaemonTasks.GdaemonTasks.AfterCmd | src/classes/gdaemon_tasks.cpp:281-297 | the install status set after each kind and outcome |
| GdaemonTasks.GdaemonTasks.Update | src/classes/gdaemon_tasks.cpp:51-111 | the state after any reply of the panel, a failed request included |
| GdaemonTasks.GdaemonTasks.CheckAfterCrash | src/classes/gdaemon_tasks.cpp:113-172 | the same for tasks left working by a crash, which become waiting again |
| GdaemonTasks.GdaemonTasks.AdmitOne | src/classes/gdaemon_tasks.cpp:64-110 | one loop round: which entries are skipped, and the new waiting task otherwise |
| GdaemonTasks.GdaemonTasks.Stats | src/classes/gdaemon_tasks.cpp:351-357 | the two numbers returned are the count of the working tasks, and that of the waiting and the working ones together |
| GdaemonTasks.CheckTasks | src/daemon.cpp:52-63 | the object's states under the daemon's loop are those of `Run`, so every run theorem is about the class |
| GdaemonModel.LoopStepsAt | src/daemon.cpp:55-63 | the steps of that loop are, pass after pass, the panel's reply and then one call of `run_next` |
| GdaemonCalls.CallsOfUpdate | src/classes/gdaemon_tasks.cpp:51-172 | which entries of a reply are taken, in order: none of its id there, a name, status 1 (2 after a crash) and a known server; each becomes a waiting task with the entry's fields at the back of the queue |
| GdaemonCalls.CallsOfStart | src/classes/gdaemon_tasks.cpp:204-279 | in every run, by the name in the panel's entry: the command each of the seven names builds, all calls of the start and the whole new state; any other name ends in ERROR |
| GdaemonCalls.CallsOfPoll | src/classes/gdaemon_tasks.cpp:281-349 | in every run: all calls of a poll and the whole new state, by the fields of the poll and the name in the entry, with the install status set and the output sent |
| GdaemonCalls.BlockedCall | src/classes/gdaemon_tasks.cpp:19-23 | a front task that waits for an admitted one goes to the back, and nothing else happens |
| GdaemonCalls.StartInLog | src/classes/gdaemon_tasks.cpp:204-270 | at every start in every log, by the name in the last admitted entry: mapped, marked in process for "gsinst" and "gsupd", forked and reported WORKING, or reported ERROR with nothing mapped |
| GdaemonCalls.VerdictOfLastPoll | src/classes/gdaemon_tasks.cpp:319-325 | in every log, a report behind a poll of the same admission is SUCCESS exactly if the last poll saw a true result and a normal exit, and ERROR otherwise; that poll saw the command complete or the process ended |
| GdaemonCalls.PollDecides | src/classes/gdaemon_tasks.cpp:319-343 | in every log, a poll is followed by the task's report before any other poll of it exactly if it saw the command complete or the process ended |
| GdaemonInvariant.RunKeepsInv | src/classes/gdaemon_tasks.cpp:14-172 | over every run: queued ids are distinct and equal `exists_tasks`, statuses are WAITING or WORKING, and the keys of both maps are the ids of the working tasks |
| GdaemonInvariant.DeadBranches | src/classes/gdaemon_tasks.cpp:301-317 | in every reachable state a queued task has a command and a pid exactly if it is working, so the two failure branches are never taken |
| GdaemonInvariant.StatsCount | src/classes/gdaemon_tasks.cpp:351-357 | the first number counts exactly the working tasks, the second all queued ones |
| GdaemonInvariant.WorkingCountsAsWaiting | src/classes/gdaemon_tasks.cpp:351-357 | one update and one call give a run with one working task, none waiting, and 1 as the second number |
| GdaemonSafety.LivesInOrder | src/classes/gdaemon_tasks.cpp:204-349 | at every point of every run each task's outside calls follow its life: admitted, started, mapped, marked, forked, reported working, polled, judged, marked, unmapped, reported |
| GdaemonSafety.ReportsOfOneAdmission | src/classes/gdaemon_tasks.cpp:261-268 | the reports of one admission are none, WORKING, WORKING and one verdict, or ERROR alone for an unknown kind; SUCCESS exactly if the last poll saw a true result and a normal exit |
| GdaemonSafety.FinishedWhenGone | src/classes/gdaemon_tasks.cpp:33-43 | an admitted task has left `exists_tasks` exactly if its final report is out |
| GdaemonTrace.ConsistentAfter | src/classes/gdaemon_tasks.cpp:323-343 | along any events the reports and the last poll agree with the phase of the life |
| GdaemonSafety.StartsUnblocked | src/classes/gdaemon_tasks.cpp:19-27 | at every start, of any kind, the task is waiting and its predecessor is not alive |
| GdaemonSafety.StartsAfterPredecessor | src/classes/gdaemon_tasks.cpp:19-43 | if the predecessor is alive when a task is admitted, the task's start, whatever its kind, comes after the predecessor's final report |
| GdaemonSafety.AliveIsAdmitted | src/classes/gdaemon_tasks.cpp:41-42 | being alive in the log is being in `exists_tasks` |
| GdaemonSafety.BlocksConserved | src/classes/gdaemon_tasks.cpp:244-341 | command blocks mapped less those unmapped are the entries of `active_cmds`, over every run |
| GdaemonSafety.NoDoubleUnmap | src/classes/gdaemon_tasks.cpp:335-337 | no block is unmapped twice in any run |
| GdaemonSafety.NoPollAfterEnd | src/functions/gsystem.cpp:298-310 | no process is polled again after a poll that ended its task |
| GdaemonLiveness.TrappedForever | src/classes/gdaemon_tasks.cpp:19-23 | tasks caught in a waiting cycle are never started, polled or reported in any run, whatever is admitted, and stay queued unchanged |
| GdaemonLiveness.DoomedIsLargestTrapped | src/classes/gdaemon_tasks.cpp:19-23 | the tasks whose chain never leaves the admission set are the largest set of tasks waiting for each other |
| GdaemonLiveness.DoomedIsDecidable | src/classes/gdaemon_tasks.cpp:19-23 | following the chain once per queued task decides whether a task is doomed |
| GdaemonLiveness.ExactlyTheDoomedStay | src/classes/gdaemon_tasks.cpp:14-44 | without admissions and with children that finish, n * W rounds leave exactly the doomed tasks, n the queue length and W the starts and polls still needed |
| GdaemonLiveness.RoundsAreRun | src/daemon.cpp:55-61 | these rounds are what the daemon's loop does while no reply of the panel admits a task |
| GdaemonLiveness.LoopLeavesTheDoomed | src/daemon.cpp:52-63 | after any run, n * W passes of the daemon's loop without admissions leave exactly the doomed tasks |
| GdaemonLiveness.SelfWaiterIsDoomed | src/classes/gdaemon_tasks.cpp:19-23 | one update with a task that names itself as its predecessor gives a doomed task |
| GdaemonLiveness.QueueRunsEmpty | src/classes/gdaemon_tasks.cpp:14-44 | the queue is empty after n * W rounds if every chain leaves the admission set |
| ServersTasks.ServersTasks.RunNext | src/classes/servers_tasks.cpp:14-75 | the whole new state of one call is a step the library's contract allows, the edit of the queued record and the early return included |
| ServersTasks.ServersTasks.Start | src/classes/servers_tasks.cpp:77-99 | new state, status and outside calls |
| ServersTasks.ServersTasks.Proceed | src/classes/servers_tasks.cpp:101-146 | new state, status, counter, date, panel record and outside calls for every poll |
| ServersTasks.ServersTasks.Conclude | src/classes/servers_tasks.cpp:45-74 | the task is queued again as waiting, forgotten, or due in 30 seconds, and a completed command is released |
| ServersTasks.ServersTasks.SyncFromApi | src/classes/servers_tasks.cpp:237-257 | the record's fields after an answered and after a failed request |
| ServersTasks.ServersTasks.SyncToApi | src/classes/servers_tasks.cpp:259-281 | the panel's record after the write |
| ServersTasks.ServersTasks.Update | src/classes/servers_tasks.cpp:201-235 | the state after any list of ids is a run of admissions |
| ServersTasks.ServersTasks.Push | src/classes/servers_tasks.h:51 | a push keeps the elements and, if it held before, the order of the heap of objects |
| ServersTasks.ServersTasks.Pop | src/classes/servers_tasks.h:51 | the same for the removal of the top element |
| ServersTasks.CheckTasks | src/daemon.cpp:38-49 | the object's states under the thread's loop are those of an allowed `Run`, pass by pass: the panel's ids, and then one call exactly if the head's date is not past the clock |
| ServersCalls.CallsOfAdmit | src/classes/servers_tasks.cpp:213-234 | a listed id that is new becomes a waiting task with the panel's fields, `repeat` cut to 16 bits; a known one changes nothing |
| ServersCalls.ReadAgain | src/classes/servers_tasks.cpp:16-27 | the head's fields are read again exactly if they were not read before or more than 300 seconds ago; the time of the first read is kept |
| ServersCalls.LastReads | src/classes/servers_tasks.cpp:20-26 | a call that completes no run keeps the time of the first read |
| ServersCalls.WaitsForDate | src/classes/servers_tasks.cpp:29-31 | a waiting task is left alone up to the panel's date |
| ServersCalls.DroppedAtLimit | src/classes/servers_tasks.cpp:33-37 | a due waiting task whose counter has reached its number of repetitions is dropped without a call |
| ServersCalls.StartedWhenDue | src/classes/servers_tasks.cpp:39-99 | any other due waiting task is started: all calls, the whole new state, and the next poll 30 seconds later |
| ServersCalls.StartedIff | src/classes/servers_tasks.cpp:29-41 | a call with a waiting head logs its start exactly if the date is past and repetitions are left, or there is no limit |
| ServersCalls.WaitsForPoll | src/classes/servers_tasks.cpp:18-31 | a working task is left alone up to its date unless its record is read again |
| ServersCalls.PolledOnly | src/classes/servers_tasks.cpp:71-146 | a poll that shows no end: the poll alone is logged, and the next one is 30 seconds later |
| ServersCalls.CompletedCalls | src/classes/servers_tasks.cpp:45-146 | a poll that shows an end: all calls, by the poll's fields and the record's command code |
| ServersCalls.CompletedState | src/classes/servers_tasks.cpp:45-146 | and the whole new state: counter and date of the panel's record, and the task waiting again exactly while repetitions are left |
| ServersOutcomes.FailureTold | src/classes/servers_tasks.cpp:117-137 | in every log, the last poll before a completion saw an end, and a failure with its output stands before the completion exactly unless it saw a true result and a normal exit |
| ServersOutcomes.LeavesOnlyAtLimit | src/classes/servers_tasks.cpp:35-54 | in every run a task leaves the queue or `exists_tasks` only when its completions and the panel's first counter reach its number of repetitions |
| ServersHeap.HeadIsFirst | src/classes/servers_tasks.h:14-21 | in an ordered heap no element is before the head under `CompareTask` |
| ServersInvariant.HeadAlwaysFirst | src/classes/servers_tasks.cpp:14-33 | in every run the head of the queue is first under `CompareTask`, in spite of the edits |
| ServersInvariant.EditsKeepOrder | src/classes/servers_tasks.cpp:18-33 | an edit of the queued head keeps the heap ordered; it changes nothing, or it moves the date before now and the same call pops the record |
| ServersInvariant.WorkingNeverDropped | src/classes/servers_tasks.cpp:35-37 | the exhausted-repeat return never drops a working task or one with a command |
| ServersBlocking.PolledIff | src/classes/servers_tasks.cpp:14-43 | a call polls a working task exactly if no queued task is waiting and some date lies before now, or the head's record is read again, which moves its date back |
| ServersBlocking.HeldUpReachable | src/classes/servers_tasks.h:14-21 | a run from the start with a working task behind a waiting one of the future |
| ServersBlocking.HeldUp | src/classes/servers_tasks.h:14-21 | while the head waits for a date, no call up to then starts, polls or ends any task, working ones with an earlier date included |
| ServersInvariant.RunKeepsSInv | src/classes/servers_tasks.cpp:14-146 | over every run: ids are unique, records agree with the panel, waiting ones in their date too, and the keys of both maps are the working ids |
| ServersHistory.CompletionsBounded | src/classes/servers_tasks.cpp:35-54 | a task with a non-zero repeat completes at most repeat less its first counter times in any run, re-admission included |
| ServersHistory.StartsOnlyWhenDue | src/classes/servers_tasks.cpp:29-31 | no start at or before the date the panel holds, which is the first one or the last completion plus the period |
| ServersHistory.StartsAreSpaced | src/classes/servers_tasks.cpp:139-142 | each start is later than every earlier start or completion of the task plus its period |
| ServersHistory.StartsInWindow | src/classes/servers_tasks.cpp:29-142 | n starts of a task span at least (n - 1) * (period + 1) seconds |
| ServersHistory.OneRunAtATime | src/classes/servers_tasks.cpp:39-43 | between two starts of a task there is a completion |
| ServersHistory.BlocksConserved | src/classes/servers_tasks.cpp:56-66 | command blocks mapped less those unmapped are the entries of `active_cmds`, over every run |
| ServersHistory.CommandsUsedOnce | src/classes/servers_tasks.cpp:56-66 | no block is unmapped twice, no process polled after its end, and the lookup on completion never creates a null entry |
| GString.FindIffFirst | src/functions/gstring.cpp:21 | `Find` is the least index of an occurrence, or none exists |
| GString.StrReplace | src/functions/gstring.cpp:17-27 | the in-place loop ends with the leftmost split of the subject joined by the replacement |
| GString.SplitJoin | src/functions/gstring.cpp:17-27 | joining the split by the search string gives the subject back |
| GString.SplitUnique | src/functions/gstring.cpp:17-27 | the split is the only list of leftmost-cut pieces that joins to the subject |
| GString.ReplacedLength | src/functions/gstring.cpp:23-24 | the length is that of the subject plus count * (replacement - search) |
| GString.ReplacedScan | src/functions/gstring.cpp:21-25 | an occurrence at the front is replaced and the scan goes on behind it in the subject, so inserted text is never scanned |
| GString.FixPathSlashes | src/functions/gsystem.cpp:360-369 | every maximal run of k slashes and backslashes becomes ceil(k / 2) slashes, all else stays in order |
| GString.PassHalvesRuns | src/functions/gsystem.cpp:366-367 | replacing double slashes in the unified string halves the runs, rounding up |
| GString.NormalisedIff | src/functions/gsystem.cpp:366-367 | the result has no double slash exactly if the path has no three slashes in a row |
| GString.ThreeSlashesStayTwo | src/functions/gsystem.cpp:366-367 | three slashes become two, which is not normalised |
| Shortcodes.ReplaceShortcodes | src/commands/game_server_cmd.cpp:245-275 | the result is the twelve built-in passes and then the variable passes, in order |
| Shortcodes.BuiltinsMean | src/commands/game_server_cmd.cpp:255-270 | what each of the twelve built-in names stands for |
| Numerals.DecimalUnique | src/commands/game_server_cmd.cpp:264-267 | the text of a number is the only text of digits without a leading zero that reads as the number |
| Numerals.IntTextReads | src/classes/game_servers_list.cpp:332-357 | the text of an int has a minus sign exactly if it is negative, and reads back as the int |
| Shortcodes.PassIsSplice | src/functions/gstring.cpp:17-27 | a pass over a rendered template splices the value into the holes of that name and touches nothing else, one kind of brace being allowed in literals and both in values |
| Shortcodes.PassesAreSimultaneous | src/commands/game_server_cmd.cpp:255-274 | passes equal one substitution in which the first binding of a name counts, if one kind of brace is missing from the literals and from the values that count |
| Shortcodes.SimultaneousIff | src/commands/game_server_cmd.cpp:255-274 | passes followed by a brace-free variable equal one substitution for every such template and variable exactly if the values that count do not hold both kinds of brace |
| Shortcodes.OneValueIff | src/commands/game_server_cmd.cpp:255-274 | for a single value before the variable: exactly if it does not hold both kinds itself |
| Shortcodes.ServerLawIff | src/commands/game_server_cmd.cpp:255-274 | a server's built-in values obey the law for every template and all brace-free variables, in any order, exactly if they do not hold both kinds of brace |
| Shortcodes.OwnValuesIff | src/commands/game_server_cmd.cpp:255-274 | a server's passes, with variables whose values may hold braces, and one more brace-free pass obey the law exactly if all the values that count do not hold both kinds of brace |
| Shortcodes.EnvironmentOf | src/commands/game_server_cmd.cpp:255-274 | the environment is the variables overridden by the built-ins, for every iteration order |
| Shortcodes.ShortcodesAreSimultaneous | src/commands/game_server_cmd.cpp:245-275 | the whole equals one simultaneous substitution, built-ins hiding variables, independent of the iteration order, if one kind of brace is missing from literals and values |
| Shortcodes.StartCommandLine | src/commands/game_server_cmd.cpp:81-87 | the command line is the script with `{command}` replaced, and then the shortcodes |
| Shortcodes.StartCommandIsTemplate | src/commands/game_server_cmd.cpp:81-87 | shortcodes inside the start command are filled too: one substitution in the spliced template |
| Shortcodes.BracedValueIsRescanned | src/commands/game_server_cmd.cpp:255-274 | for a server whose uuid is the tag of its one variable, `{uuid}` becomes the value of that variable and not the uuid |
| IpcCmdOutput.Buffer.Append | src/commands/output/ipc_cmd_output.cpp:7-27 | the line and a newline join the stream of the buffer, all indices staying in range |
| IpcCmdOutput.Buffer.Get | src/commands/output/ipc_cmd_output.cpp:29-47 | the bytes returned are the window of the stream since the last clear |
| IpcCmdOutput.Buffer.Clear | src/commands/output/ipc_cmd_output.cpp:49-57 | the stream is empty afterwards |
| IpcCmdOutput.Output | src/commands/cmd.h:45-49 | reading returns the window and leaves the stream empty |
| IpcCmdOutput.Serve | src/commands/cmd.h:83-95 | under any interleaving of appends and drains the object holds `Pending` and the reader got `Drained` |
| IpcCmdOutput.WindowByte | src/commands/output/ipc_cmd_output.cpp:14-24 | byte i of the window is byte j of the stream for the largest j congruent to i modulo the capacity |
| IpcCmdOutput.WindowExact | src/commands/output/ipc_cmd_output.cpp:29-47 | up to the capacity the window is the stream |
| IpcCmdOutput.WindowRotates | src/commands/output/ipc_cmd_output.cpp:14-47 | beyond it the window is the last bytes rotated by the length modulo the capacity |
| IpcCmdOutput.InOrderIff | src/commands/output/ipc_cmd_output.cpp:14-47 | every stream of lines of length k is read in order exactly if k is within the capacity or a multiple of it, and then every other string of that length too |
| IpcCmdOutput.OverflowIsOutOfOrder | src/commands/output/ipc_cmd_output.cpp:14-47 | a line of two bytes through a buffer of two comes out behind its own newline |
| IpcCmdOutput.DrainLosesOutput | src/commands/cmd.h:45-49 | a line longer than the buffer comes out of the drain short and out of order |
| IpcCmdOutput.DrainsConserveIff | src/commands/cmd.h:45-49 | drained output and what is left are the appended stream exactly if no more than the capacity ever waited |
| ServersSync.LastWriterWins | src/classes/game_servers_list.cpp:271-281 | for every run: an answered sync shows the install status of the last writer, each `sync_all` counting as a write, exactly if that writer was the daemon, or its edit was stamped later than the daemon's record, or the daemon held that status anyway |
| ServersSync.PatchTells | src/classes/game_servers_list.cpp:171-183 | a PATCH that arrives shows the daemon's status in every row it holds and changes nothing else but stamps |
| ServersSync.RunReconciles | src/classes/game_servers_list.cpp:144-184 | over every run, after a last writer that is seen: either the panel wrote last and its stamp shows it, or the daemon holds the last value and the panel cannot take it back |
| ServersSync.EditTakenIff | src/classes/game_servers_list.cpp:275-281 | for every run: the next answered sync shows the enabled and blocked flags of the last edit exactly if the edit is outstanding (its own stamp, or that of the last PATCH behind it, is later than the daemon's, and no sync has read it), or the daemon's record said the same |
| ServersSync.LostForGood | src/classes/game_servers_list.cpp:275-281 | a row not outstanding keeps the daemon's flags as they are over every run without a new edit and without a PATCH that restamps it later |
| ServersSync.SameSecondEditIsLost | src/classes/game_servers_list.cpp:275-279 | a run from a fresh list in which an edit stamped in the second of a local write is not taken over |
| ServersSync.RewriteLosesEdit | src/classes/game_servers_list.cpp:144-184 | a run from a fresh list in which an edit later than every local write is lost by a rewrite of the stamps before it is read |
| ServersSync.SkippedForGood | src/classes/game_servers_list.cpp:275-281 | an edit skipped once is skipped by every later sync of the same row |
| GameServersList.GameServersList.UpdateOne | src/classes/game_servers_list.cpp:34-92 | an unknown server joins with all the listed fields, ports cut to 16 bits, and without stamp, check, variables or settings; a known one is left alone |
| GameServersList.GameServersList.SyncFromApi | src/classes/game_servers_list.cpp:254-373 | a failed or empty reply changes nothing; otherwise only the addressed server changes: guarded fields, stamp, all copied fields, each variable by its index in the reply or among the defaults, and the settings the reply names, the last value counting |
| GameServersList.Server.Row | src/classes/game_servers_list.cpp:155-171 | the row sent for a server: its status, and its last check less the time difference if that is positive |
| GameServersList.GameServersList.SyncAll | src/classes/game_servers_list.cpp:144-184 | every server's stamp is rewritten, status and check stay, and the rows sent hold each status and, if it lies past the panel's epoch, the last process check |
| GameServersList.GameServersList.SetInstallStatus | src/classes/game_servers_list.cpp:234-243 | the status is written and everything synced; an unknown server changes nothing |
| GameServersList.Serve | src/classes/game_servers_list.cpp:34-373 | under any allowed calls and panel edits from an empty list, the object's entries and the panel are those of `ServersSync.Run`, so the run theorems are about the class |
| GameServersList.ModDefaults | src/classes/game_servers_list.cpp:321-337 | a key has the text of its first supported default, null being the empty string |
| GameServersList.OverlayVars | src/classes/game_servers_list.cpp:321-363 | by index: each string or number of the server's own counts; elsewhere the first null, string or number among the mod's defaults; no other key is there |

## Left out

- REST requests, JSON parsing, TLS, logging, configuration and authentication: the panel's replies are inputs of the steps.
- The byte framing of sessions, file transfer, the installer, dedicated server statistics, process supervisors and service control.
- Data races between threads and between a child and its parent in the shared buffer: each method call is one step.
- Failure of `fork` and of memory mapping, and reuse of pids and addresses by the system.
- Release of output blocks: `DedicatedServerCmd::destroy` releases nothing, so conservation is stated for command blocks only.
- What a command does inside its process: a poll shows its flags and its drained output.
- Liveness of the recurring scheduler: a waiting task of the future holds up working ones (`ServersBlocking.HeldUp`).
- A panel that changes recurring tasks between a write and the next read, or rejects a write.
- GString.StrReplace: the empty search string is excluded, because the source loops for ever on it.
- Shortcodes.ShortcodesAreSimultaneous: names are brace-free, and one kind of brace is missing from literals and values; `Shortcodes.ServerLawIff` shows that the values cannot do with less.
- Shortcodes.StartCommandIsTemplate: the same for the script's and the start command's template.
- The payload of recurring tasks, which nothing reads, and the mapping of the panel's command names to codes.
- Autostart, process checks and their statistics: a child's changes to settings never reach the parent.
