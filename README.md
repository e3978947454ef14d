# A verified model of the scheduler simulator and the shell's command-line core

This project models two parts of a course repository on operating systems:

- The `Scheduler` of the CPU/I/O scheduling simulator (`Assignments/P02/pkg/scheduler.py`).
  - It has a logical clock, a list of processes that have not arrived yet, a FIFO ready queue and a FIFO wait queue.
  - Each CPU and each I/O device holds at most one process.
  - It also keeps a finished list, a structured event log and a human-readable log.
  - `step()` runs five phases in order, then the clock ticks: admit arrived processes, tick every CPU (with Round-Robin quantum preemption and burst-completion routing), tick every device, dispatch idle CPUs from the ready queue, dispatch idle devices from the wait queue.
  - `run()` steps until both queues are empty and nothing is busy.
- The command-line core of the shell (`Assignments/P01/Shell.py`).
  - `parse_cmd` splits a line into pipeline records.
  - `get_counts` is the counting core of `wc`.
  - `history_expansion` expands a history index.
  - The key handling of the interactive line editor covers insert, Backspace, the four arrows, Enter with `!N` recall, Ctrl-C and `exit`.

## Layout

- `wrappers.dfy`: `Option`.
- `text.dfy` (`Text`): Python's `split(sep)`, `sep.join`, `split()`, `strip()`, `splitlines()`, `str()` of an integer and `int()` of a string.
- `process.dfy` (`Process`): the process record, and the contract of a resource's `tick()`, which is all `step` uses of the classes it calls.
- `sched_spec.dfy` (`SchedulerSpec`): the scheduler state as a value (`Sys`) and every phase of `step` as a function.
  - Each resource loop is a fold `Loop(body, s, k)` over the resources in list order.
  - `Moves(s, t)` says t holds the same processes as s, the finished list and the log only grow, and no more work is owed.
- `sched_props.dfy` (`SchedulerProps`): admission and dispatch in detail. It also has the generic loop lemmas.
- `sched_step.dfy` (`SchedulerStep`): what a whole `step()` and `add_process()` promise, including progress toward termination.
- `sched_log.dfy` (`SchedulerLog`): log lines, the timeline, event-type names and device labels, and the CSV header order.
- `sched_query.dfy` (`SchedulerQuery`): `processes()` and `_snapshot()`.
- `scheduler.dfy` (`Scheduling`): the `Scheduler` class.
  - The CPUs' and devices' `current` slots are two arrays; everything else is a field.
  - Every method is proved to change the state exactly as the spec function of the same phase says.
- `shell_parse.dfy`, `shell_count.dfy`, `shell_history.dfy`, `line_editor.dfy`: the shell.
  - `parse_cmd` and the editor are methods with loops and mutable fields, each proved equal to a reference function.

## Model

| member | source | states |
|---|---|---|
| Scheduling.Scheduler.constructor | Assignments/P02/pkg/scheduler.py:31-51 | A new scheduler reads the shared clock's current time, has the requested numbers of idle CPUs and devices, and has empty queues, lists and logs. |
| SchedulerSpec.Init | Assignments/P02/pkg/scheduler.py:31-51 | The initial state is idle and dispatched, holds no process, keeps its log in clock order, and has the clock at the shared clock's time passed in. |
| SchedulerSpec.Record | Assignments/P02/pkg/scheduler.py:93-125 | The `_record` step on the state value. `RecordFacts` and `RecordMoves` carry its contract: exactly one event is appended, stamped with the clock, and nothing else changes. |
| Scheduling.Scheduler.RecordEvent | Assignments/P02/pkg/scheduler.py:93-125 | `_record` appends one event and its log line. The event is stamped with the current clock and holds the pids of both queues and of every CPU and device. |
| SchedulerQuery.SnapshotMatchesEvent | Assignments/P02/pkg/scheduler.py:127-136 | A snapshot and an event recorded in the same state agree on the clock, both queues and the holders of every CPU and device. |
| SchedulerSpec.AddProcess | Assignments/P02/pkg/scheduler.py:57-79 | `add_process` on the state value. `AddProcessPlaces` and `AddProcessOrdered` carry its contract. |
| Scheduling.Scheduler.AddProcess | Assignments/P02/pkg/scheduler.py:57-79 | `add_process` changes the state as `SchedulerSpec.AddProcess` says. |
| SchedulerStep.AddProcessPlaces | Assignments/P02/pkg/scheduler.py:65-79 | An arrived process joins the ready-queue tail as ready, with exactly one enqueue event stamped with the clock. A later one joins the pending list and no event is logged. Exactly one pid is added and nothing else changes. |
| SchedulerStep.AddProcessOrdered | Assignments/P02/pkg/scheduler.py:65-79 | `add_process` keeps event times non-decreasing and no later than the clock. |
| Scheduling.Scheduler.AdmitArrivals | Assignments/P02/pkg/scheduler.py:148-153 | The admission loop over a copy of the pending list gives `Admission` of the old state and leaves the clock alone. |
| Scheduling.Scheduler.AdmitIfArrived | Assignments/P02/pkg/scheduler.py:149-153 | One iteration of admission: an arrived process is marked ready, appended to the ready queue, logged, and removed from the pending list. |
| SchedulerProps.AdmitPrefixQueues | Assignments/P02/pkg/scheduler.py:148-153 | After j iterations, the arrived processes among the first j are at the ready tail in pending order and marked ready, each with one arrival event stamped with the clock. The others stay pending, in order, ahead of the unvisited ones. Nothing else changes. |
| SchedulerProps.AdmissionQueues | Assignments/P02/pkg/scheduler.py:148-153 | The same for the whole admission phase. |
| SchedulerStep.AdmissionMoves | Assignments/P02/pkg/scheduler.py:148-153 | Admission only moves processes. |
| SchedulerSpec.AdmitOneMoves | Assignments/P02/pkg/scheduler.py:149-153 | One admission only moves a process from pending to ready, with one event stamped with the clock. |
| Process.TickSlot | Assignments/P02/pkg/scheduler.py:157 | The assumed contract of a resource's `tick()`. An idle resource stays idle. A busy one either keeps its process, one tick nearer the end of the burst with the quantum untouched, or frees itself and hands the process back past the finished burst. |
| SchedulerStep.TickCpuQuantum | Assignments/P02/pkg/scheduler.py:157-171 | A process whose burst goes on loses exactly one unit of quantum. With quantum left it stays on the CPU and nothing is logged. With none left, the CPU is freed and the process joins the ready tail as ready with its quantum reset, with one preemption event naming it and that CPU. |
| SchedulerStep.TickCpuRoutes | Assignments/P02/pkg/scheduler.py:175-220 | A process whose burst ends leaves the CPU and lands in exactly one place, with one event. Next burst I/O: wait tail, as waiting. Next burst CPU: ready tail, state untouched. No burst left: finished, as finished. |
| SchedulerStep.TickIoRoutes | Assignments/P02/pkg/scheduler.py:223-257 | A process whose I/O burst ends leaves the device. It joins the ready tail as ready when any burst is left, whatever its kind; otherwise it joins finished as finished. One event either way. |
| SchedulerStep.TickIoKeeps | Assignments/P02/pkg/scheduler.py:223-225 | A device whose burst goes on keeps its process, one tick nearer the end, and logs nothing. |
| SchedulerSpec.AdmitOne | Assignments/P02/pkg/scheduler.py:149-153 | Admitting one process touches neither the clock nor any CPU or device. |
| SchedulerSpec.AdmitPrefix | Assignments/P02/pkg/scheduler.py:148-153 | The first j admission iterations touch neither the clock nor any CPU or device. |
| SchedulerSpec.Admission | Assignments/P02/pkg/scheduler.py:148-153 | The admission phase touches neither the clock nor any CPU or device. |
| SchedulerProps.AdmitPrefixMoves | Assignments/P02/pkg/scheduler.py:148-153 | Every prefix of the admission loop only moves processes. |
| SchedulerSpec.RecordFacts | Assignments/P02/pkg/scheduler.py:93-125 | Recording appends exactly one event, stamped with the current clock, and changes nothing else. |
| SchedulerSpec.ExpireQuantum | Assignments/P02/pkg/scheduler.py:160-171 | The quantum bookkeeping changes at most CPU i. The ready queue can only grow at its tail, and the wait queue, devices and clock stay as they were. |
| SchedulerSpec.PreemptMoves | Assignments/P02/pkg/scheduler.py:165-171 | Preempting a CPU's process to the ready tail only moves it. |
| SchedulerSpec.RouteFromCpu | Assignments/P02/pkg/scheduler.py:175-220 | Routing a process off a CPU logs exactly one event. Both queues only grow at their tails, and no CPU or device changes. |
| SchedulerSpec.TickCpu | Assignments/P02/pkg/scheduler.py:155-220 | Ticking CPU i changes at most that CPU. The queues only grow at their tails, and the devices and clock stay as they were. |
| SchedulerSpec.TickCpuDone | Assignments/P02/pkg/scheduler.py:175-220 | A CPU whose burst ends hands its process on with less work owed in total. |
| SchedulerSpec.RouteFromIo | Assignments/P02/pkg/scheduler.py:225-257 | Routing a process off a device logs exactly one event. Only the ready queue grows, at its tail, and the wait queue, CPUs and devices stay as they were. |
| SchedulerSpec.TickIo | Assignments/P02/pkg/scheduler.py:223-257 | Ticking device i changes at most that device. Only the ready queue grows, at its tail, and the wait queue, CPUs and clock stay as they were. |
| SchedulerSpec.TickIoDone | Assignments/P02/pkg/scheduler.py:225-257 | A device whose burst ends hands its process on with less work owed in total. |
| SchedulerSpec.DispatchToCpu | Assignments/P02/pkg/scheduler.py:263-277 | Dispatching CPU i changes at most that CPU, and leaves the wait queue, devices and clock alone. |
| SchedulerSpec.DispatchToIo | Assignments/P02/pkg/scheduler.py:282-290 | Dispatching device i changes at most that device, and leaves the ready queue, CPUs and clock alone. |
| SchedulerProps.DispatchCpusTaken | Assignments/P02/pkg/scheduler.py:260-277 | After k CPUs, the ready queue has lost exactly one head per idle CPU among them, while any remain. |
| SchedulerProps.DispatchIosTaken | Assignments/P02/pkg/scheduler.py:281-290 | After k devices, the wait queue has lost exactly one head per idle device among them, while any remain. |
| SchedulerProps.DispatchCpuSlot | Assignments/P02/pkg/scheduler.py:260-277 | An idle CPU j takes the ready process whose position is the number of idle CPUs before it, marked running. A busy CPU keeps its process. |
| SchedulerStep.DispatchKeepsWork | Assignments/P02/pkg/scheduler.py:260-290 | Dispatch never raises the work owed. |
| SchedulerStep.TickCpusKeepIos | Assignments/P02/pkg/scheduler.py:155-220 | The CPU loop leaves every device as it was. |
| SchedulerStep.CpuOrIoBusy | Assignments/P02/pkg/scheduler.py:304-309 | With at least one CPU and one device, a dispatched state that is not idle has a busy CPU or device. |
| SchedulerStep.RoutedProgress | Assignments/P02/pkg/scheduler.py:148-257 | From such a state, admission and the two tick loops complete at least one unit of work. |
| SchedulerSpec.ExpireQuantumMoves | Assignments/P02/pkg/scheduler.py:160-171 | The quantum bookkeeping only moves processes. |
| SchedulerSpec.RouteFromCpuMoves | Assignments/P02/pkg/scheduler.py:175-220 | Routing adds the process to exactly one place and one event stamped with the clock. It keeps the work owed, or drops it when the process is finished. |
| SchedulerSpec.RouteFromIoMoves | Assignments/P02/pkg/scheduler.py:225-257 | The same for a process leaving a device. |
| SchedulerSpec.TickCpuMoves | Assignments/P02/pkg/scheduler.py:155-220 | Ticking one CPU only moves processes, and lowers the work owed when the CPU was busy. |
| SchedulerSpec.TickIoMoves | Assignments/P02/pkg/scheduler.py:223-257 | The same for one device. |
| SchedulerProps.TickCpusMoves | Assignments/P02/pkg/scheduler.py:155-220 | The whole CPU loop only moves processes, and lowers the work owed when some CPU was busy. |
| SchedulerProps.TickIosMoves | Assignments/P02/pkg/scheduler.py:223-257 | The same for the device loop. |
| SchedulerSpec.DispatchToCpuMoves | Assignments/P02/pkg/scheduler.py:263-277 | Dispatching one CPU only moves a process and keeps the work owed. |
| SchedulerSpec.DispatchToIoMoves | Assignments/P02/pkg/scheduler.py:282-290 | The same for one device. |
| SchedulerProps.DispatchMoves | Assignments/P02/pkg/scheduler.py:260-290 | Both dispatch loops only move processes. |
| SchedulerProps.DispatchCpusFifo | Assignments/P02/pkg/scheduler.py:260-277 | Idle CPUs, in list order, take the heads of the ready queue, marked running, while the queue lasts. Busy CPUs keep their process. The queue loses exactly the processes taken. |
| SchedulerProps.DispatchIosFifo | Assignments/P02/pkg/scheduler.py:281-290 | Idle devices, in list order, take the heads of the wait queue while it lasts. Busy devices keep theirs. The queue loses exactly those taken. |
| SchedulerProps.DispatchCpusPrefixFills | Assignments/P02/pkg/scheduler.py:260-277 | After the loop has visited k CPUs, each of them is busy or the ready queue is empty. |
| SchedulerProps.DispatchIosPrefixFills | Assignments/P02/pkg/scheduler.py:281-290 | After the loop has visited k devices, each of them is busy or the wait queue is empty. |
| SchedulerStep.StepDispatched | Assignments/P02/pkg/scheduler.py:259-290 | After a step, every CPU is busy or the ready queue is empty, and every device is busy or the wait queue is empty. |
| SchedulerSpec.Step | Assignments/P02/pkg/scheduler.py:143-294 | `step()` on the state value: the five phases in order, then the clock tick. `StepMoves`, `StepConserves`, `StepEventsOrdered`, `StepDispatched` and `StepProgress` carry its contract. |
| SchedulerStep.StepMoves | Assignments/P02/pkg/scheduler.py:143-294 | A step advances the clock by exactly one and otherwise only moves processes. |
| SchedulerStep.StepConserves | Assignments/P02/pkg/scheduler.py:143-294 | A step neither loses nor duplicates a process. The finished list and the log only grow, new events carry the clock from before the tick, the numbers of CPUs and devices stay the same, and the work owed never grows. |
| SchedulerStep.StepEventsOrdered | Assignments/P02/pkg/scheduler.py:143-294 | A step keeps event times non-decreasing and no later than the clock. |
| Scheduling.Scheduler.TickCpuAt | Assignments/P02/pkg/scheduler.py:157-220 | One iteration of the CPU loop changes the fields and the CPU array as `TickCpu` says. |
| Scheduling.Scheduler.TickIoAt | Assignments/P02/pkg/scheduler.py:224-257 | One iteration of the device loop, as `TickIo`. |
| Scheduling.Scheduler.DispatchCpuAt | Assignments/P02/pkg/scheduler.py:263-277 | One iteration of CPU dispatch, as `DispatchToCpu`. |
| Scheduling.Scheduler.DispatchIoAt | Assignments/P02/pkg/scheduler.py:282-290 | One iteration of device dispatch, as `DispatchToIo`. |
| Scheduling.Scheduler.TickAllCpus | Assignments/P02/pkg/scheduler.py:155-220 | The CPU loop in list order, as `TickCpus`; the clock is untouched. |
| Scheduling.Scheduler.TickAllIos | Assignments/P02/pkg/scheduler.py:223-257 | The device loop in list order, as `TickIos`. |
| Scheduling.Scheduler.DispatchAllCpus | Assignments/P02/pkg/scheduler.py:260-277 | The CPU dispatch loop, as `DispatchCpus`. |
| Scheduling.Scheduler.DispatchAllIos | Assignments/P02/pkg/scheduler.py:281-290 | The device dispatch loop, as `DispatchIos`. |
| Scheduling.Scheduler.Step | Assignments/P02/pkg/scheduler.py:143-294 | `step()` changes the state as `SchedulerSpec.Step` says, so every lemma about `Step` applies to it. |
| SchedulerStep.StepProgress | Assignments/P02/pkg/scheduler.py:143-294 | With at least one CPU and one device, a step from a dispatched state that is not idle strictly lowers the work owed. |
| SchedulerStep.RunProgress | Assignments/P02/pkg/scheduler.py:304-310 | From any state that is not idle, a step keeps the resource counts, leaves a dispatched state, never raises the work owed, and lowers it when it started dispatched. This is the termination argument of `run()`. |
| Scheduling.Scheduler.Run | Assignments/P02/pkg/scheduler.py:296-310 | With at least one CPU and one device, `run()` returns. It stops in the first state reached by repeated steps in which both queues are empty and nothing is busy. Pending processes are not part of that test. |
| SchedulerStep.StuckWithoutCpu | Assignments/P02/pkg/scheduler.py:304-310 | Without a CPU, a non-empty ready queue stays non-empty after a step, so `run()` would not return. |
| SchedulerStep.StuckWithoutDevice | Assignments/P02/pkg/scheduler.py:304-310 | Without a device, a non-empty wait queue stays non-empty after a step. |
| SchedulerLog.Phrase | Assignments/P02/pkg/scheduler.py:152-287 | The text after the pid in each kind of `_record` description. `PhraseOneLine` carries its contract: no description breaks a line. |
| SchedulerLog.Description | Assignments/P02/pkg/scheduler.py:152-287 | The `event` text: the pid in decimal, then the phrase of its kind. `LogLineReadsBack` shows it is recovered intact from its log line. |
| SchedulerLog.LogLine | Assignments/P02/pkg/scheduler.py:103 | The `log` entry of `_record`. `LogLineReadsBack`, `LogLineOneLine` and `ClockField` carry its contract. |
| SchedulerLog.LogLineReadsBack | Assignments/P02/pkg/scheduler.py:103 | A log line starts with `time=`. The clock runs up to the first `\|` and reads back with `int()`, and the description follows `\| `. |
| SchedulerLog.ClockField | Assignments/P02/pkg/scheduler.py:103 | The `time=` field of a line holds no `\|` and reads back as the clock with `int()`. |
| SchedulerLog.PhraseOneLine | Assignments/P02/pkg/scheduler.py:152-287 | No event description contains a newline. |
| SchedulerLog.ParseJoined | Assignments/P02/pkg/scheduler.py:103 | A clock field joined to a description by `\| ` parses back into that clock and description. |
| SchedulerLog.LogLineOneLine | Assignments/P02/pkg/scheduler.py:103 | No log line contains a newline. |
| SchedulerLog.LogLines | Assignments/P02/pkg/scheduler.py:103-104 | The log holds one line per event, in event order. |
| SchedulerLog.TimelineSplits | Assignments/P02/pkg/scheduler.py:312-314 | Splitting the timeline at newlines gives back exactly the log lines. |
| Scheduling.Scheduler.Timeline | Assignments/P02/pkg/scheduler.py:312-314 | `timeline()` of a non-empty log splits back into the log. |
| SchedulerLog.EventTypeName | Assignments/P02/pkg/scheduler.py:152-287 | Every event type has a non-empty lower-case name. |
| SchedulerLog.EventTypeNameInjective | Assignments/P02/pkg/scheduler.py:152-287 | Different kinds of event never share a name. |
| SchedulerLog.DeviceLabel | Assignments/P02/pkg/scheduler.py:270-289 | A device label is `CPU` or `IO` followed by the resource's index in decimal. |
| SchedulerLog.DeviceLabelInjective | Assignments/P02/pkg/scheduler.py:270-289 | Two labels are equal only for the same resource. |
| SchedulerLog.CsvHeader | Assignments/P02/pkg/scheduler.py:110-123 | With no events there is no header. Otherwise the header lists the nine keys of an event record in their insertion order, each exactly once: `time`, `event`, `event_type`, `process`, `device`, `ready_queue`, `wait_queue`, `cpus`, `ios`. |
| SchedulerQuery.Busy | Assignments/P02/pkg/scheduler.py:87-88 | A process is among the busy resources' processes exactly when some resource holds it. |
| SchedulerQuery.LastWinsSpec | Assignments/P02/pkg/scheduler.py:90 | The dictionary comprehension has a key for every listed pid. Each key maps to the last listed process with that pid. |
| SchedulerQuery.Processes | Assignments/P02/pkg/scheduler.py:81-91 | `processes()` on the state value. `ProcessesKeys` and `ProcessesDistinct` carry its contract. |
| SchedulerQuery.ProcessesKeys | Assignments/P02/pkg/scheduler.py:81-91 | `processes()` knows a pid exactly when a queued, finished or running process has it. |
| SchedulerQuery.ProcessesDistinct | Assignments/P02/pkg/scheduler.py:81-91 | When listed pids are distinct, `processes()` maps each to its process. |
| SchedulerQuery.TakeSnapshot | Assignments/P02/pkg/scheduler.py:127-136 | `_snapshot()` on the state value. `ReadyEntries` and `SnapshotMatchesEvent` carry its contract. |
| SchedulerQuery.ReadyEntries | Assignments/P02/pkg/scheduler.py:131 | The snapshot's ready entries are the (pid, remaining quantum) pairs of the ready queue, in order. |
| ShellParse.ParseCmd | Assignments/P01/Shell.py:47-78 | `parse_cmd` returns `ParseSpec` of its input. |
| ShellParse.ParseSegment | Assignments/P01/Shell.py:52-77 | The token loop over one segment's words gives the reference record `SegmentSpec`. |
| ShellParse.ParseSpec | Assignments/P01/Shell.py:47-78 | There is one record per `\|`-separated segment: the number of bars plus one. |
| ShellParse.ParseSegments | Assignments/P01/Shell.py:49-77 | Every record starts with no input. A segment's command is its first word, and an empty segment gives the blank record. |
| ShellParse.SegmentSpec | Assignments/P01/Shell.py:52-77 | The record of one segment's words. `ParseSegment` is proved equal to it. `ApplyMeaning`, `GroupParams`, `SegmentPlain`, `ParamAppends`, `FlagLastWins`, `NFlagTakesWord` and `RedirectTarget` carry its contract. |
| ShellParse.ApplyMeaning | Assignments/P01/Shell.py:55-76 | Processing the words keeps the command name, appends the parameters in order, and leaves the last flag and the last redirection written. |
| ShellParse.GroupParams | Assignments/P01/Shell.py:74-75 | The parameters are some of the words in input order, and none of them is a flag or `>`. |
| ShellParse.ParamAppends | Assignments/P01/Shell.py:74-75 | A word that is neither a flag nor `>`, and is not the argument of `-n` or `>`, is appended to the parameters, and nothing else in the record changes. |
| ShellParse.SegmentPlain | Assignments/P01/Shell.py:57-75 | In a segment with no flags and no `>`, every word after the command is a parameter, in order, and nothing else is set. A lone `-` counts as such a word. |
| ShellParse.FlagLastWins | Assignments/P01/Shell.py:59-67 | A flag word `-x` written last decides the flags as `x`. A trailing `-n` gives `n`. |
| ShellParse.NFlagTakesWord | Assignments/P01/Shell.py:60-63 | `-n v` sets the flags to `n` followed by v, and v does not become a parameter. |
| ShellParse.RedirectTarget | Assignments/P01/Shell.py:68-73 | `> f` redirects to f. A trailing `>` leaves no redirection and adds no parameter. |
| ShellCount.GetCounts | Assignments/P01/Shell.py:683-698 | `get_counts`. `NoFlagsCountWords`, `CountsReadBack` and `FlagsBySet` carry its contract. |
| ShellCount.Selected | Assignments/P01/Shell.py:691-697 | One count is selected per letter among `w`, `l`, `c` present in the flags. Words come first when selected, then lines, and the last count is the character count when `c` is selected. |
| ShellCount.NoFlagsCountWords | Assignments/P01/Shell.py:688-689 | Without flags, or with empty flags, the result reads back as the number of words. |
| ShellCount.CountsReadBack | Assignments/P01/Shell.py:691-698 | With flags, the result splits at blanks into the selected counts, in the order words, lines, characters, each read back by `int()`. With none of the letters, the result is empty. |
| ShellCount.FlagsBySet | Assignments/P01/Shell.py:691-698 | Only which of `w`, `l`, `c` occur matters, not their order. |
| ShellCount.WordsAtMostChars | Assignments/P01/Shell.py:684-686 | There are never more words than characters. |
| ShellCount.LinesAtMostChars | Assignments/P01/Shell.py:684-686 | There are never more lines than characters. |
| ShellCount.OneLine | Assignments/P01/Shell.py:684 | A text with no line break is one line, or none when empty. |
| ShellHistory.HistoryExpansion | Assignments/P01/Shell.py:790-803 | Exactly one of output and error is present. `execute` is present exactly when output is, the output is an entry of the history, and `execute` is its parse. |
| ShellHistory.ExpansionRecalls | Assignments/P01/Shell.py:795-799 | A first parameter that `int()` reads as k, with 1 <= k <= len(history), gives entry k, counted from 1, with its parse. This holds however k is spelled (`03`, `+3`, ` 3 `, `1_0`). |
| ShellHistory.ExpansionRecallsWritten | Assignments/P01/Shell.py:795-799 | In particular, the index written as `str(k)` recalls entry k. |
| ShellHistory.ExpansionOutOfRange | Assignments/P01/Shell.py:795-801 | Any index outside 1..len(history), zero and negatives included, is out of range. |
| ShellHistory.ExpansionErrors | Assignments/P01/Shell.py:790-803 | Each error holds exactly when its condition does: no parameter, a non-numeric index, or an index out of range. |
| LineEditor.Start | Assignments/P01/Shell.py:953-957 | The editor starts with an empty line, the cursor at 0 and the browsing index past the newest entry. |
| LineEditor.Handle | Assignments/P01/Shell.py:961-1110 | Every key keeps the cursor within the line and the browsing index within the history. The history only grows, by one line exactly when a line is run, and then the editor starts a fresh line and the commands run are the line's parse. |
| LineEditor.Move | Assignments/P01/Shell.py:977-1002 | The arrows never change the history and never leave the cursor or the index out of bounds. |
| LineEditor.Editor.constructor | Assignments/P01/Shell.py:953-957 | The loop's variables start as `Start` of the loaded history. |
| LineEditor.Editor.HandleKey | Assignments/P01/Shell.py:961-1110 | One loop iteration changes the variables and produces the outcome as `Handle` says. |
| LineEditor.Editor.SubmitLine | Assignments/P01/Shell.py:1005-1034 | The Enter branch changes the variables as `Submit` says. |
| LineEditor.ExitQuits | Assignments/P01/Shell.py:964-967 | Ctrl-C quits, and so does any key whatever once the line strips to `exit`. |
| LineEditor.TypedRunLines | Assignments/P01/Shell.py:1005-1034 | A typed line that is run is the current line, never blank and never `exit`. |
| LineEditor.BackspaceDeletes | Assignments/P01/Shell.py:969-974 | Backspace with the cursor past the start removes exactly the character before the cursor, keeps the rest in order, and moves the cursor back by one. |
| LineEditor.BackspaceAtStart | Assignments/P01/Shell.py:969-974 | Backspace at the start of the line changes nothing. |
| LineEditor.InsertThenBackspace | Assignments/P01/Shell.py:1107-1110 | A key other than the four control keys inserts its character at the cursor and advances the cursor by one. Backspace right after restores the state exactly. |
| LineEditor.RightThenLeft | Assignments/P01/Shell.py:995-1002 | Right then Left returns to the same state. The cursor does not move past either end. |
| LineEditor.UpThenDown | Assignments/P01/Shell.py:980-994 | From a fresh line, Up shows the newest entry with the cursor at its end, and Down returns to the fresh line. |
| LineEditor.UpBrowses | Assignments/P01/Shell.py:980-985 | Up from index i > 0 shows entry i - 1. At index 0 nothing happens. |
| LineEditor.DownAdvances | Assignments/P01/Shell.py:986-990 | Down before the newest entry shows the next entry, with the cursor at its end. |
| LineEditor.DownPastNewest | Assignments/P01/Shell.py:986-994 | Down at or past the newest entry clears the line and parks the index past the newest entry. |
| LineEditor.Submit | Assignments/P01/Shell.py:1005-1034 | Enter either runs a line or clears the line, never quitting. A run line is the typed line, or a history entry when recalled with `!N`. After a run the history has gained that line, the editor starts fresh, and the commands are its parse. `BlankEnter`, `EnterRecords`, `BangRecalls`, `BangRejects` and `BangAgreesWithExpansion` fix each branch. |
| LineEditor.BlankEnter | Assignments/P01/Shell.py:1007-1011 | Enter on a blank line clears it and leaves the history alone. |
| LineEditor.EnterRecords | Assignments/P01/Shell.py:1029-1034 | Enter on an ordinary line appends it to the history, sets the index to the new length, runs its parse and clears the line. |
| LineEditor.BangLine | Assignments/P01/Shell.py:1013 | A `!` followed by a blank-free word strips to itself, is never `exit`, and gives that word after the `!`. |
| LineEditor.BangRecalls | Assignments/P01/Shell.py:1013-1022 | `!k` with 1 <= k <= len(history) runs entry k and appends it to the history again. |
| LineEditor.BangRejects | Assignments/P01/Shell.py:1013-1020 | `!i` with i <= 0 or i > len(history) reports `bash: !i: event not found`, records nothing and clears the line. |
| LineEditor.BangAgreesWithExpansion | Assignments/P01/Shell.py:1013-1027 | The editor's `!` expansion runs a line exactly when `history_expansion` of the rest of the line succeeds, and with the same line and commands. |

## Left out

- Processes as values: each process sits in exactly one place, so a value per place stands for the Python object. Aliasing of process objects is not modelled.
- The `Clock`, `CPU`, `IODevice` and `Process` classes are not part of this model.
  - Their sources were not available.
  - A resource's `tick()` is given the contract in `Process.TickSlot`.
  - `assign()` sets a CPU's process to running, and leaves a device's process alone.
  - The quantum is not reset on dispatch.
- Scheduling.Scheduler.constructor: the `Clock()` at `scheduler.py:33` shares its state with every other `Clock()` instance. The model keeps only its current reading, which the constructor takes as `start`. Within the model only `step()` advances the clock. Ticks made through another instance while the scheduler runs are not modelled.
- The preemption event at `scheduler.py:170` builds its device label from `cpu.pid`, while CPUs are created with a `cid`. The model logs the CPU's index, as every other CPU event does.
- I/O completion follows the code, not its comment: a process with any burst left goes to the ready queue, even when that burst is I/O (`scheduler.py:231-233`).
- Scheduling.Scheduler.Run: requires at least one CPU and one device. Without either, `run()` can loop forever (see `StuckWithoutCpu` and `StuckWithoutDevice`).
- Scheduling.Scheduler.Run: states where it stops, not the contents of that state. Processes still pending when the queues drain stay pending, as in the source.
- Scheduling.Scheduler.Processes and Scheduling.Scheduler.Snapshot: carry no contract of their own. Their content is stated about `SchedulerQuery.Processes` and `TakeSnapshot`.
- The `verbose` console printing, the no-op `_callback` / `on_state_change` observer, and the file writing of `export_json` and `export_csv` are left out. Only the CSV header order is modelled.
- The visualizer is not part of this model. Neither are the scheduling policies other than FIFO dispatch with a Round-Robin quantum, since the scheduler code has no others.
- In the shell, `getch`, `print_cmd`, printing, `load_history`/`save_history` and the commands that touch the OS or files are left out. Running the parsed pipeline is reduced to the `Run` outcome carrying the line and its parse.
- LineEditor.Handle: an escape byte in the source always reads two more characters and takes the second as the direction. The model takes the whole sequence as one `Arrow(direction)` key, and treats a lone escape byte as a sequence with no known direction.
- `int()` is modelled for ASCII digits only: surrounding whitespace, an optional sign, and single underscores between digits.
- `str.split()`, `strip()` and `splitlines()` use Python's whitespace and line-boundary sets, character by character. Unicode normalisation is not modelled.
