# TaskScheduler — a verified model of the scheduler daemon's core

TaskScheduler is a small POSIX job scheduler. A single binary runs either as
the server or as a client.

- **Server** (`scheduler` with no arguments). It keeps a linked list of tasks.
  Each task owns a POSIX timer that runs a command once, at an absolute time,
  or periodically. The server serves requests from a message queue: add,
  list, cancel and stop.
- **Client** (`scheduler -a|-l|-c|-s ...`). It turns its command line into one
  fixed-size request message.

Before serving, the server starts a logger (`logger_init`, logger.c). The
logger writes timestamped lines to `app.log`, and it installs signal handlers
and a worker thread:
- SIGRTMIN+1 switches logging on and off.
- SIGRTMIN+2 cycles the level 0, 1, 2.
- SIGRTMIN posts a dump request.
- SIGINT raises the exit flag.

The worker thread serves the switch and the level. Dump requests and the exit
flag are read only by `logger_run`, the logger's wait loop, and the
scheduler's `main` (scheduler.c:364-375) never calls it. In the scheduler
binary, therefore, no dump file is ever written. There SIGINT only interrupts
`mq_receive`, and the server loop retries (scheduler.c:352-353). The model
covers `logger_run` as a loop of its own (`Logging.RunSpec`,
`Logging.Logger.Run`), in a program that would call it.

This project models that core in Dafny, in six modules.

- `Wrappers` (wrappers.dfy) holds the `Option` and `Result` types used for
  missing values and error exits.

- `CStrings` (cstrings.dfy) covers the C string handling the code relies on:
  - `strncpy` into a 256-byte buffer and `strncat`, as truncation to 255
    characters;
  - the single-space join of the client's trailing arguments, with its
    inverse split;
  - `%d`/`%ld` formatting, and reading it back with `atol`/`atoi`.
- `Tasks` (tasks.dfy) is the task store as a value:
  - the list (newest first), the counter `next_task_id`, and the live OS
    timers keyed by task id;
  - one function per operation, and the store invariant;
  - lemmas proving what each operation does and keeps;
  - the delay and interval table of `add_task`, and the listing text.
- `TaskStore` (task_list.dfy) holds the class `TaskList`, which keeps the
  store and changes it in place. Each method follows its C function loop by loop and is proved to
  compute the matching `Tasks` function.
- `Protocol` (protocol.dfy) covers the client's argv-to-message builder
  (including the `strncat` loop), one dispatch step of the server, and the
  server's `flagga` loop. It also proves round trips from the client's command
  line to the stored task.
- `Logging` (logger.dfy) is the logger's control state. It has one function
  per handler, one per worker wake and one per pass of the main wait loop, and
  the class `Logger` performs the same steps on its fields. Lemmas cover:
  - the 3-cycle of the level and the involution of the switch;
  - the coalescing of repeated signals;
  - gating of log lines;
  - the dump file name;
  - the accounting of dump requests.

The outside world is made explicit. The clock (`now`, the timestamp string)
is a parameter. Each fallible system call is a boolean supplied by the caller:
`malloc`, `timer_create`, `timer_settime`, `fopen`, `mq_open` of the reply
queue, and the logger's setup calls. A POSIX timer is its
`(it_value, it_interval)` pair in seconds. As section "timer_settime" of
POSIX.1 (IEEE Std 1003.1) says, a zero `it_value` disarms the timer, so
`Armed` is `value != 0`, and only a task with an armed timer can fire.

Two behaviours of the code are easy to miss.

- **Disarmed tasks.** One might expect every stored task to hold an armed
  timer. The code, however, zeroes the `its` record and arms it with a zero
  `it_value` in three cases: an absolute time that is not in the future, a zero relative or
  periodic time, and an unknown schedule type. Such a task is stored with a
  disarmed timer, never fires, and stays until it is cancelled
  (`Tasks.DisarmedIff`, `Tasks.DisarmedTaskSurvivesFiring`).
- **Ids of failed adds.** The code draws the id only after `malloc` has
  succeeded. A failed allocation therefore does not use up an id. A failure
  of `timer_create` or `timer_settime` does. Either way, the ids returned
  strictly increase and are never reused.

## Model

| member | source | states |
|---|---|---|
| CStrings.Truncate | scheduler.c:128-131 | strncpy into a 256-byte buffer keeps exactly the first min(|s|, 255) characters, a prefix of the input |
| CStrings.TruncateIdempotent | scheduler.c:254 | cutting the already cut argument string again (argbuf to msg.args, then to the task) changes nothing |
| CStrings.StrNCat | scheduler.c:250 | strncat appends at most n characters of the source |
| CStrings.StrNCatTruncates | scheduler.c:248-253 | appending with the remaining room keeps the buffer equal to the 255-character truncation of everything appended |
| CStrings.Join | scheduler.c:248-253 | the client's trailing arguments in order, separated by single spaces, with no space before the first or after the last |
| CStrings.JoinSnoc | scheduler.c:249-253 | appending one more token adds a single space and the token |
| CStrings.SplitJoin | scheduler.c:249-253 | splitting the joined arguments on spaces gives back the tokens when none contains a space |
| CStrings.IntToDec | scheduler.c:99-100 | %d text is non-empty, starts with a digit or '-', and holds no newline or space |
| CStrings.Atol | scheduler.c:245 | atol/atoi: skips leading white space, reads an optional sign and then as many digits as follow; no digits reads 0 |
| CStrings.AtolOfIntToDec | scheduler.c:245 | atol of %d text followed by a non-digit is the number printed |
| CStrings.AtolSigned | scheduler.c:245 | atol of a text starting with '-' is minus the value of the digits after it |
| CStrings.AtolUnsigned | scheduler.c:245 | atol of a text starting with a digit is the value of its leading digits |
| Tasks.InitialTimer | scheduler.c:144-158 | the timer add_task arms: delay timeVal for a relative or periodic task, timeVal - now for an absolute time in the future and 0 otherwise, 0 for an unknown type; interval timeVal only for a periodic task |
| Tasks.DisarmedIff | scheduler.c:144-159 | the timer a task is armed with is disarmed exactly for a zero relative or periodic time, an absolute time not after now, or an unknown type |
| Tasks.ExpirySchedule | scheduler.c:147-158 | an armed timer first expires timeVal seconds after now (relative, periodic) or at timeVal (absolute), and repeats every timeVal seconds only for periodic tasks |
| Tasks.InitialValid | scheduler.c:55-56 | the empty list with the counter at 1 satisfies the store invariant |
| Tasks.Add | scheduler.c:122-171 | add_task: -1 with the store untouched when malloc fails; -1 with only the counter advanced when timer_create or timer_settime fails; otherwise the new task at the head, its timer live, the counter advanced and its id returned |
| Tasks.AddEffect | scheduler.c:122-171 | success exactly when malloc, timer_create and timer_settime succeed; the id returned is the counter, above every live id; the new task is at the head with its strings cut to 255 and its computed timer, every earlier task unchanged and in order; on failure -1, list and timers unchanged, counter advanced unless malloc failed |
| Tasks.AddValid | scheduler.c:122-171 | add_task keeps the store invariant, and the id it draws owns no live timer |
| Tasks.PrependValid | scheduler.c:164-166 | linking a well-formed task with the counter's id in at the head keeps the invariant |
| Tasks.Remove | scheduler.c:59-70 | remove_task_from_list: the list without the task of that id, and its timer deleted |
| Tasks.RemoveValid | scheduler.c:59-70 | unlinking by id keeps the invariant |
| Tasks.DropMembers | scheduler.c:59-70 | after unlinking by id the list holds exactly the tasks with another id |
| Tasks.DropKeepsOrder | scheduler.c:59-70 | unlinking keeps the list newest first with unique ids |
| Tasks.DropAt | scheduler.c:59-70 | with unique ids, removing an id found at index k yields the list without exactly position k |
| Tasks.DropUniqueAt | scheduler.c:59-70 | when no other task has the id of position k, unlinking that id removes exactly position k |
| Tasks.Cancel | scheduler.c:173-194 | cancel_task: 0 after removing a live task, -1 with nothing changed when the id is absent |
| Tasks.CancelEffect | scheduler.c:173-194 | 0 exactly when the id is live, and then exactly that task is gone, the rest in order, its timer released; -1 and nothing changed otherwise; the counter never moves |
| Tasks.CancelAll | scheduler.c:196-208 | cancel_all_tasks: no task and no timer left, the counter as it was |
| Tasks.CancelAllEffect | scheduler.c:196-208 | the list and the live timers become empty and the counter keeps its value |
| Tasks.AfterFiring | scheduler.c:82-86 | the store after a task's timer callback: a task that is not periodic is removed, a periodic one stays |
| Tasks.AfterFiringEffect | scheduler.c:82-86 | after a firing, a non-periodic task is gone with its timer and all other tasks stay; a periodic task's firing changes nothing |
| Tasks.DisarmedTaskSurvivesFiring | scheduler.c:144-159 | a task whose timer was disarmed at creation is not removed by any firing |
| Tasks.ApplyCounter | scheduler.c:125 | no operation moves the counter back, and a successful add returns the counter and advances it by one |
| Tasks.IdsStrictlyIncrease | scheduler.c:56 | over any history of adds, cancels, firings and cancel-alls, the ids returned strictly increase, lie between the starting and final counter, so none is reused |
| Tasks.ApplyValid | scheduler.c:122-208 | every store operation keeps the invariant (ids in range, newest first, timers those of the live tasks) |
| Tasks.ReplayValid | scheduler.c:122-208 | the invariant holds after any history |
| Tasks.TaskText | scheduler.c:99-100 | "Task <id>: typ=<type>, time_val=<time>, command=<command>, args=<args>" for one task |
| Tasks.TaskInfo | scheduler.c:98-101 | the task_info buffer: a task's line followed by a newline |
| Tasks.Listing | scheduler.c:88-107 | the task_info buffers of all tasks concatenated in list order, newest first; empty for no task |
| Tasks.ListingSnoc | scheduler.c:97-103 | appending a task to the walked prefix appends its line and a newline to the buffer |
| Tasks.ListingPrefix | scheduler.c:97-103 | the listing of the first i+1 tasks is that of the first i followed by task i's line |
| Tasks.TaskTextSingleLine | scheduler.c:99-100 | a task whose command and arguments hold no newline yields a line without one |
| Tasks.ListingLines | scheduler.c:88-107 | split at newlines, the listing is one line per live task in list order (newest first), then the empty remainder |
| Tasks.TaskTextId | scheduler.c:99-100 | atoi of a listing line after "Task " gives back the task's id |
| TaskStore.TaskList.constructor | scheduler.c:55-56 | the list starts empty with next_task_id 1 |
| TaskStore.TaskList.AddTask | scheduler.c:122-171 | the store and the returned id are those of Tasks.Add, and the invariant holds |
| TaskStore.TaskList.RemoveTaskFromList | scheduler.c:59-70 | the pointer walk leaves the store as Tasks.Remove says |
| TaskStore.TaskList.TimerCallback | scheduler.c:82-86 | the store after the callback of an armed task is Tasks.AfterFiring |
| TaskStore.TaskList.TaskListToString | scheduler.c:88-107 | the strcat loop builds exactly the listing of the current list, or nothing when malloc fails |
| TaskStore.TaskList.CancelTask | scheduler.c:173-194 | the prev/cur walk returns and leaves what Tasks.Cancel says |
| TaskStore.TaskList.CancelAllTasks | scheduler.c:196-208 | the walk releases every timer and empties the list, as Tasks.CancelAll |
| TaskStore.IdsTail | scheduler.c:198-203 | with unique ids the head's id is not in the rest of the list |
| Protocol.ClientQueueName | scheduler.c:210-211 | the reply queue name fits its 64-byte field |
| Protocol.JoinArgs | scheduler.c:248-253 | the strncat loop yields the tokens joined by single spaces, cut to 255 characters |
| Protocol.JoinArgsStep | scheduler.c:250-252 | one round of strncat calls keeps the buffer the truncation of the tokens appended so far, with the separating space exactly when another token follows |
| Protocol.BadTypeReadsNoMore | scheduler.c:231-243 | `-a` with an unknown type needs no time or command and fails with BadTaskType |
| Protocol.BuildRequest | scheduler.c:228-267 | the message built field by field is Protocol.Request of argv |
| Protocol.Request | scheduler.c:228-267 | the message run_client sends for argv, with the reply queue name, or the error it exits with |
| Protocol.RequestShape | scheduler.c:231-267 | -a/-l/-c/-s give DODAJ/LISTA/ANULUJ/STOP; failure exactly for an -a type other than rel/abs/cyc (BadTaskType) or another option (UnknownOption); an add request carries type 0..2 and strings of at most 255 characters; every request names the client's queue |
| Protocol.Dispatch | scheduler.c:311-355 | one loop pass: DODAJ adds, LISTA replies with the listing when malloc and mq_open succeed, ANULUJ cancels, STOP clears flagga, a failed receive or unknown opcode does nothing |
| Protocol.DispatchEffect | scheduler.c:311-355 | one received message keeps the store invariant; only STOP ends the loop; only LISTA replies, to the named queue, with the current listing; failed receives, LISTA, STOP and unknown opcodes leave the store unchanged |
| Protocol.Serve | scheduler.c:308-357 | the loop over a run of receive results: dispatch in order until STOP, then cancel every task; the store, the replies sent, the messages read and whether it stopped |
| Protocol.ServeValid | scheduler.c:308-357 | the store invariant holds after the loop, and a stopped server (cancel_all_tasks done) holds no task |
| Protocol.ServeStops | scheduler.c:308-357 | the loop stops exactly when some message is STOP, and then right after the first one; with no STOP it reads every message |
| Protocol.ServeReplies | scheduler.c:321-333 | the replies sent number at most the LISTA requests read |
| Protocol.ServeAdvance | scheduler.c:309-356 | after one more dispatch the run read so far is extended by that step, or ends there with the store emptied when the step stops the loop |
| Protocol.ServeOne | scheduler.c:311-355 | the switch on the opcode changes the store and returns the reply and the flagga value as Protocol.Dispatch says |
| Protocol.ServeStep | scheduler.c:309-356 | one more message read extends the run by exactly one dispatch step |
| Protocol.RunServer | scheduler.c:308-357 | the loop with cancel_all_tasks after it leaves the store, replies and messages read as Protocol.Serve |
| Protocol.AddRoundTrip | scheduler.c:245-254 | a served add request stores at the head the named type, atol of the time, the cut command and joined arguments; the arguments split back into the client's tokens when they have no spaces and fit |
| Protocol.CancelRequest | scheduler.c:257-259 | `-c <text>` sends ANULUJ with the id atoi reads from the text |
| Protocol.DispatchCancel | scheduler.c:334-339 | an ANULUJ message is served by cancel_task of its id, with no reply and the loop going on |
| Protocol.CancelRoundTrip | scheduler.c:257-259 | -c with an id's decimal text cancels exactly that id |
| Logging.LogLine | logger.c:36-43 | "[<timestamp>] [Akutalny poziom logowania: <level>] <message>" and a newline |
| Logging.Logged | logger.c:33-47 | logger_log: appends one entry at the current level when the file is open and logging is on, otherwise nothing |
| Logging.LoggedEffect | logger.c:33-47 | an entry is appended exactly when the file is open and logging is on, with the current level; nothing else changes; the text of app.log grows by exactly that entry's line |
| Logging.LogLineFields | logger.c:36-38 | the line begins with the bracketed timestamp and atoi recovers the level from it |
| Logging.OnExit | logger.c:49-52 | handler_exit: sets the exit flag |
| Logging.OnDump | logger.c:54-57 | handler_dump: posts the dump semaphore |
| Logging.OnToggle | logger.c:59-63 | handler_toggle: raises the toggle flag and posts the worker's semaphore |
| Logging.OnChange | logger.c:65-69 | handler_change: raises the level flag and posts the worker's semaphore |
| Logging.ToggleHandled | logger.c:82-89 | a pending toggle negates the switch, logs the new value under the new setting, and clears the flag |
| Logging.LevelHandled | logger.c:90-100 | a pending level change moves the level 0, 1, 2, 0, logs it at the new level, and clears the flag |
| Logging.Woken | logger.c:79-101 | one worker pass: takes the semaphore, serves the toggle, then the level |
| Logging.LevelCycle | logger.c:91-96 | the level stays in 0..2, always changes, and three advances return it |
| Logging.WokenEffect | logger.c:79-101 | one wake takes the semaphore, serves both pending requests (negate switch, advance level) and clears both flags; with no flag raised it changes nothing else |
| Logging.ToggleInvolution | logger.c:82-89 | two toggles restore the switch |
| Logging.LevelRoundTrip | logger.c:90-100 | three level changes restore the level |
| Logging.ToggleCoalesces | logger.c:59-63 | two SIGRTMIN+1 before the worker runs have the effect of one, the extra wake changing nothing |
| Logging.ChangeCoalesces | logger.c:65-69 | two SIGRTMIN+2 before the worker runs advance the level once |
| Logging.DumpFileName | logger.c:106-109 | "dump_<timestamp>.txt" cut to the 127 characters of the 128-byte buffer |
| Logging.DumpNameRoundTrip | logger.c:105-109 | a timestamp from the 64-byte buffer is never cut from the 128-byte name "dump_<ts>.txt", the name gives it back, and a strftime stamp gives 24 characters |
| Logging.Dumped | logger.c:105-119 | dumpy: when fopen succeeds, the file is recorded and its name logged; otherwise nothing changes |
| Logging.Waited | logger.c:193-202 | one wait of logger_run: with a dump pending, take it, log the signal and run dumpy; otherwise nothing changes |
| Logging.WaitedEffect | logger.c:193-197 | a pass of the wait loop serves at most one pending dump, writing one file exactly when it serves one and fopen succeeds; the control state is untouched |
| Logging.StepInv | logger.c:49-100 | every handler and wake keeps switch and flags in {0,1} and level in 0..2; the exit flag once set stays set; dump files are only added |
| Logging.RunSpec | logger.c:188-204 | logger_run over a run of events: take steps while the exit flag is clear; the final state and the events read |
| Logging.RunStops | logger.c:188-204 | logger_run stops right after the first SIGINT, and reads every event when there is none |
| Logging.RunInv | logger.c:188-204 | throughout the loop the switch and flags stay in {0,1} and the level in 0..2, and dump files are only added |
| Logging.StepDumps | logger.c:54-57 | pending dump requests plus dump files grow by one on SIGRTMIN and never grow otherwise |
| Logging.RunDumps | logger.c:188-204 | every dump request taken by the loop is still pending or answered by exactly one dump file, except those whose file could not be created |
| Logging.ClosedIsSilent | logger.c:206-212 | after cleanup closes the file nothing more is logged |
| Logging.Logger.constructor | logger.c:15-24 | the globals start with logging on, level 1, no flag raised |
| Logging.Logger.Init | logger.c:121-186 | both semaphores start at 0; 0 is returned exactly when the log file is open |
| Logging.Logger.Cleanup | logger.c:206-215 | the log file is closed |
| Logging.Logger.LoggerLog | logger.c:33-47 | the object changes as Logging.Logged says |
| Logging.Logger.HandlerExit | logger.c:49-52 | only the exit flag is raised |
| Logging.Logger.HandlerDump | logger.c:54-57 | only the dump semaphore is posted |
| Logging.Logger.HandlerToggle | logger.c:59-63 | only the toggle flag is raised and the worker's semaphore posted |
| Logging.Logger.HandlerChange | logger.c:65-69 | only the level flag is raised and the worker's semaphore posted |
| Logging.Logger.WorkerWake | logger.c:79-101 | one pass of the worker loop changes the object as Logging.Woken |
| Logging.Logger.ServeToggle | logger.c:82-89 | a pending toggle negates the switch, logs the new value and clears the flag, as Logging.ToggleHandled |
| Logging.Logger.ServeLevel | logger.c:90-100 | a pending level change advances the level 0, 1, 2, 0, logs it and clears the flag, as Logging.LevelHandled |
| Logging.Logger.Dumpy | logger.c:105-119 | the dump file is recorded and logged when it can be created, as Logging.Dumped |
| Logging.Logger.Run | logger.c:188-204 | the loop over interleaved events stops as Logging.RunSpec does and leaves the same state |

## Left out

- POSIX timers are not run. A timer is its armed `(it_value, it_interval)`
  pair, and `timer_create`/`timer_settime` failures are inputs.
- The real clock is not modelled. `now` and the strftime timestamp are
  parameters, and the log and dump steps use one timestamp per step.
- TaskStore.TaskList.TimerCallback: requires the task's timer to be armed,
  because a disarmed timer never expires.
  - The fork/execlp of the command is not modelled: it is fire-and-forget and
    changes nothing the scheduler keeps.
  - The "Wykonywanie taska" log line is not modelled.
  - The race is not modelled in which a callback reads a task that
    cancel_task has already freed.
- Message queues are left out: mq_open/mq_send/mq_receive/mq_unlink. The
  server sees a finite sequence of receive results, and the client returns the
  message it would send.
  - The client's 512-byte receive buffer is left out, along with the
    4096-byte listing it may have to hold.
  - The stale-queue and reply-queue collision exits are left out.
  - Protocol.RunServer and Protocol.Serve stop when the sequence runs out,
    while the real loop blocks for more input.
- Threads, mutexes, semaphores and signal masks are left out. Every operation
  is one atomic step. The logger's threads are modelled as an interleaving of
  whole steps (Logging.Event). A waiting sem_wait is the precondition
  `childSem > 0` of Logging.Logger.WorkerWake.
- printf/perror output is left out, and so is the content of the dump file.
  The log is kept as a sequence of entries (timestamp, level, message).
  Logging.LogText renders them as the text appended to app.log. Only the
  logger's own messages (switch, level, dump) are modelled as entries. The audit lines the scheduler logs
  in add_task, cancel_task, cancel_all_tasks, list_tasks and run_server are
  not modelled.
- list_tasks, which prints to the terminal, is not modelled.
- Integers are unbounded. The 32-bit `int` of `next_task_id` and of task ids,
  `long` time values, and out-of-range atol/atoi results are not modelled.
  The id counter therefore never wraps.
- Protocol.Request: requires the arguments the client reads without checking
  that they exist. These are an option; for -a a type, and a time and a
  command once the type is known (an unknown type exits before reading them);
  for -c an id. Reading argv beyond its end is undefined behaviour in the
  client.
- Strings are sequences of characters without NUL. Every C string in the
  core ends at its first NUL, and command-line arguments and message fields
  cannot hold one. So a NUL inside a string is not modelled, and
  CStrings.Truncate, Tasks.TaskText and Protocol.Request keep every character
  they are given.
- Tasks.Listing: the 4096-byte `strcat` buffer is assumed large enough. With
  enough long tasks the C buffer overflows, and the model then shows the full
  listing.
- Negative delays are left to the `armOk` input, since Linux rejects them in
  timer_settime.
- Logging.Logger.Init: the separate failures of sem_init, sigaction and
  pthread_create are one `setupOk` input, and the sequence of calls is not
  modelled.
- logger.h only declares the logger's functions and is not part of this
  model.
