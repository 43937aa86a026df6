# Verified model of procpilot

procpilot runs child processes and pipelines with retries, timeouts, deadlines, cancellation, cached
waits and shell-style rendering. This Dafny project models the small state machines around the
operating-system calls, and the renderer, and proves what they promise over every input, every
interleaving and every run. `dafny verify dfyconfig.toml` checks it.

## Components

- **Shared handle** (`Handle`, `HandleMachine`, `HandleTheorems`, `HandleClass`). `SpawnedProcess`
  used by any number of threads is a state machine that takes one lock, OS or unlock action at a
  time, with children, pipes and OS failures moving on their own. An inductive invariant gives wait
  agreement, conservation of stdout bytes, absence of lock cycles, and that calls return. The same
  critical sections, as methods of a class that updates its fields, are proved against the functions
  the machine uses.
- **Async handle** (`AsyncHandle`). One owner, but any `wait` future may be dropped at any await.
- **Run supervisor** (`Machine`, `Supervisor`, `Attempt`, `Stdin`, `Retry`, `Deadline`, `Outcomes`). A process
  table (running, zombie, reaped), a clock, the signals each child was sent and the cancel flag are a
  class `Os` whose method contracts are the assumptions made of the system. `now` only grows: by what
  a sleep or wait asks for, plus any overhead, which `spent` adds up so that time bounds can be stated
  exactly. Every outcome of a call that the contracts allow is covered, children exit whenever they
  like, and the flag is an arbitrary function of time. Bounds go both ways: nothing ends late, and
  no child is signalled before its timeout is over, the flag is seen set or a call has failed.
  `async` selects the async runner, which differs in the waits, in the check before an unretried
  attempt, and in killing children by dropping them.
- **Renderer** (`CmdDisplay`, `PosixShell`, `RenderProofs`, `RenderTheorems`, `RenderText`, `CmdTree`). `PosixShell`
  is an independent reader written from the POSIX.1-2017 Shell Command Language (sections 2.2, 2.3,
  2.4, 2.6.7, 2.9 and 2.10.2), with bash as a second dialect. Where the standard leaves a word to the
  shell, to read as a command name or not, the reader takes any choice (`Posix(claims)`). It is run on
  what the renderer prints.
- **Search and tails** (`ProgramSearch`, `Tail`). `PATH` search against every way the OS may settle
  an entry it leaves open (section 8.3 of the POSIX.1-2017 Base Definitions), and the cut of captured
  output at a UTF-8 boundary (section 4 of RFC 3629).

## Where the code falls short of its documentation

The code was kept as it is; each gap has a counterexample and the exact condition under which the
promise holds.

- procpilot's README says `deadline` bounds the whole operation, backoff sleeps included
  (`README.md:98`). Two things are not cut to the deadline: the sleep before a retry, and the grace
  period of a cancelled attempt. `Deadline.DeadlineIsMissed` ends at 15 and
  `Deadline.GraceMissesDeadline` at 14 with a deadline of 10. `Deadline.DeadlineHoldsIff` says for which
  commands it can never happen: no attempt can start at an instant from which its delay, or its grace
  if the flag is set as its budget runs out, ends past the deadline. Which instants those are depends on
  whether failures are retried that can come at any time, or only timeouts and failures to spawn.
  `Deadline.LateByOnePause` says that the excess is at most the last delay, or that grace period.
- A rendered line is meant to run the same argv (`src/cmd_display.rs:124-126`). In a POSIX shell that
  is certain exactly when no program made of safe characters is a name and a colon, which section 2.4
  reserves, or holds a `=` past its first character after text that is not a name, which rule 7 of
  section 2.10.2 leaves to the shell; both are printed bare (`RenderTheorems.PosixRoundTripIff`, with
  `a:` and `/=b` as counterexamples). The comment at `src/cmd_display.rs:136-137`, that every reserved
  word is listed or holds a character that is quoted anyway, overlooks the first. In bash the
  exception is a program like `a+=b` (`RenderTheorems.BashRoundTripIff`,
  `RenderTheorems.BashAppendCounterexample`).
- `AsyncSpawnedProcess` waits are documented as idempotent. A `wait_timeout` that expires inside
  `finalize` loses output (`AsyncHandle.TimedOutWaitLosesStderr`, `AsyncHandle.OutcomeIsCompleteIff`).
- The documentation of cloning says later takers of a reader "see no stdin"; they get empty bytes,
  never the parent's stdin (`Stdin.HandedOut`).

## Model

| member | source | states |
|---|---|---|
| HandleMachine.RunKeeps | src/spawned.rs:189-313 | in every interleaving of any number of threads, from the start, the invariant holds: locks held match places in the code, one cache write, bytes accounted for |
| HandleTheorems.WaitAgreement | src/spawned.rs:189-283 | all final outcomes returned by wait, try_wait and wait_timeout come from one cached state, written once, with every child's own status and every stderr thread's bytes in stage order, each in full; losers of the race polled the same statuses |
| HandleTheorems.CacheNeverChanges | src/spawned.rs:265-283 | once filled, the cache is the same at every later point of the run |
| HandleTheorems.EveryReturnHasItsReason | src/spawned.rs:153-263 | in every run a thread leaves the handle by its own action only with the cached outcome, which is recorded; or on a child still running, but never from wait; or from a take, which gets the pipe exactly if it is the first to open stdout and there is one; or from a read, which returns bytes unless none were asked for or there are none to come |
| HandleTheorems.StdoutConservation | src/spawned.rs:153-161 | stdout goes whole to the one successful taker, or reads followed by the final drain are exactly what the child wrote, in order, each byte once |
| HandleTheorems.RanksRise | src/spawned.rs:265-313 | along any chain of blocked threads the requested mutex ranks strictly higher, in the order finalized, stderr_threads, stdout |
| HandleTheorems.NoCycle | src/spawned.rs:265-313 | no reachable state has a thread waiting on itself through others; at most three wait in line |
| HandleTheorems.NoDeadlock | src/spawned/read.rs:28-43 | every thread inside a method is held up, through mutex owners, only by a thread that can act or that waits for a child's exit or a pipe; one waiting for an exit holds no mutex |
| HandleTheorems.CallsReturn | src/spawned.rs:189-313 | once the children are done, every schedule of the calls under way, whichever of their OS calls fail, ends within a bound fixed in advance, with every thread out of the handle |
| HandleClass.SpawnedProcess.TakeStdout | src/spawned.rs:153-161 | the first call, before any read, gets the pipe if the child has one, whole, and marks it given away; any other gets nothing and changes nothing |
| HandleClass.SpawnedProcess.Read | src/spawned/read.rs:28-43 | the first read takes the pipe from the child, or finds there is none; a read returns the next bytes and leaves the rest; empty only at the end or when nothing was asked for; it fails only if the pipe does, and then takes nothing |
| HandleClass.SpawnedProcess.DrainRemainingStdout | src/spawned.rs:298-313 | returns exactly what the handle could still read, or after an I/O error of the pipe the part of it read before, and leaves nothing to read through the handle |
| HandleClass.SpawnedProcess.JoinStderrThreads | src/spawned.rs:285-296 | joins every thread once; the result is the bytes each yielded, in full and in order, a panicked one giving nothing |
| HandleClass.SpawnedProcess.FinalizeOrCached | src/spawned.rs:265-283 | the first call fills the cache with the statuses, all stderr in order and all pending output, or what was read of it before an I/O error; a later one changes nothing; the result reports the cache: its output, or the rightmost failing status and the tails |
| HandleClass.SpawnedProcess.TryWait | src/spawned.rs:189-207 | Ok(None) while a child still runs, and an error only if polling fails, either way changing nothing; else the outcome, cached, of every child's status |
| Handle.ReconstructReports | src/spawned.rs:246-263 | what a wait reports of its cached state: the output whole if every status is zero, else the rightmost nonzero status, the tails of both streams and one attempt |
| AsyncHandle.AsyncSpawnedProcess.Wait | src/async_spawned.rs:153-213 | the new state for every point at which the future may be dropped or a call fail; when it resolves, every status and all stderr and stdout are cached and reported; an error exactly when waiting for a child failed |
| AsyncHandle.AsyncSpawnedProcess.DrainStderrTasks | src/async_spawned.rs:215-223 | the tasks are gone however the loop is left; if it finishes their bytes are returned, each in full and in order |
| AsyncHandle.OutcomeIsCompleteIff | src/async_spawned.rs:153-236 | over any calls: the cached outcome is every status and everything the handle had to give exactly when no future was dropped inside finalize while holding output, nor a read failed before the end |
| AsyncHandle.CacheStays | src/async_spawned.rs:153-156 | over any further calls, dropped or not, a cached outcome stays |
| AsyncHandle.TimedOutWaitLosesStderr | src/async_spawned.rs:171-176 | a timed-out wait followed by a wait returns an outcome without the stderr |
| Outcomes.PipefailStatus | src/spawned.rs:318-329 | the loop computes the recursive pipefail status |
| Outcomes.PipefailIsRightmostFailure | src/async_spawned.rs:249-257 | that status is the rightmost failure if any stage failed, and a success exactly when all succeeded |
| Outcomes.CombineOutcomes | src/cmd.rs:1581-1599 | the loop computes the recursive choice, cancellation first |
| Outcomes.CombineIsPipefail | src/cmd.rs:1581-1599 | cancelled iff any stage was; otherwise the rightmost non-success, and a success iff all succeeded |
| Outcomes.RunAgreesWithHandle | src/cmd.rs:1574-1599 | on stages that all exited, run and the spawned handles choose the same status |
| Attempt.RunReportsWhatTheHandleReports | src/cmd.rs:1338-1374 | run and the spawned handles report the same output or the same error of stages that all exited |
| Attempt.FinalizeTells | src/cmd.rs:1338-1374 | each outcome gives its own result: the status of a failed exit, how long a timeout took, one attempt; the output whole on success and else the tails, stdout and stderr each in its place |
| Supervisor.CancellableSleep | src/cmd.rs:1006-1020 | true only on reading the flag set; false only after the whole delay with the flag unset at the last look; never oversleeps, and notices a flag set for good within 50 ms |
| Supervisor.KillWithGrace | src/cmd.rs:1293-1318 | SIGTERM first if the pid fits, SIGKILL only after the whole grace unless polling fails, signals only to this child and never once reaped; reaped on return, within the grace and within 50 ms of its exit |
| Supervisor.WaitSingle | src/cmd.rs:1225-1286 | each outcome and each signal has its cause: a child that exited was sent none and its status is its own; one that timed out had its whole window before the one SIGKILL, and reports at least that; a cancelled one got SIGTERM while the flag was set, soon after it was and before its window was over, and SIGKILL only after the grace; reaped on return, in time for the window and the flag, and at once when the child exits, or within 50 ms if the flag is polled |
| Supervisor.WaitSingleAsync | src/cmd/async_cmd.rs:406-464 | the async wait meets the same specification; reaping and the time bounds assume polling does not fail |
| Supervisor.WaitStages | src/cmd.rs:1427-1460 | whatever mix of exits, timeouts and cancellation: one outcome a child and suffix-closed cancellation; each stage signalled only for its own outcome, those that exited not at all, none for a timeout before the shared one was over, only the one that saw the flag with SIGTERM and grace, the others killed only once it was seen; all reaped within one shared timeout plus at most one grace, and soon after the last exit |
| Supervisor.StageKeepsTrack | src/cmd.rs:1449-1452 | a stage whose window was cut from the shared budget keeps the whole pipeline inside it, so waits do not add up, and its signals keep their causes |
| Supervisor.NoticedTwice | src/cmd.rs:1257-1262 | a flag noticed in time by each of two waits in a row is noticed in time by both together, one poll interval in all |
| Supervisor.KillOthers | src/cmd.rs:1450-1457 | on cancellation all other stages are sent SIGKILL alone, none once reaped, and are reaped |
| Supervisor.KillAndWaitAll | src/cmd.rs:1604-1623 | every child spawned so far is killed and reaped |
| Supervisor.DropHandle | src/spawned.rs:331-340 | every child is reaped unless its poll failed, and one whose poll failed is sent nothing; no running child is waited for, so each is killed; the drop takes only the calls' own time |
| Attempt.SpawnStages | src/cmd.rs:1474-1543 | no pipe end is missing when taken; each stage spawned reads pipe i-1 and writes pipe i; after the loop the parent holds no end and no stage was signalled; it fails only if a call does, and after a failure at any stage the earlier ones are disposed of, by SIGKILL alone |
| Attempt.OneHolderPerEnd | src/cmd.rs:1666-1746 | in a spawned pipeline each pipe has one writer and one reader, which are neighbours |
| Attempt.ExecuteSingle | src/cmd.rs:1157-1220 | one command: its child reaped, or not spawned because a call failed; the outcome and every signal accounted for by its cause; in time for the timeout, the flag and the exit |
| Attempt.ExecutePipeline | src/cmd.rs:1462-1573 | a pipeline: an exit outcome is the own status of the rightmost failing child, which like those to its right was sent no signal; a timeout is reported only once the shared timeout is over; only the child that saw the flag is asked to end, and every kill is due to a timeout, the flag, a failed spawn or a failed call; no child left; one timeout |
| Attempt.ExitOfPipeline | src/cmd.rs:1581-1599 | a pipeline that ends with a status ends with that of its rightmost failing process, and neither that one nor any to its right was signalled |
| Attempt.Execute | src/cmd.rs:870-896 | one attempt: the result tells of an outcome with those causes for it and for every signal, also after the children are dropped; a failure to start or to wait only if a call failed; Ok only if every stage exited with success |
| Stdin.SharedStdin.TakeForSync | src/cmd.rs:257-281 | over all attempts and clones: bytes the same every time, a reader once to the first taker, then empty bytes |
| Stdin.SharedStdin.TakeForAsync | src/cmd.rs:284-301 | the same for the async runner, with async readers |
| Retry.PerAttemptIsLargest | src/cmd.rs:704-711 | a duration fits the attempt's budget iff it fits the timeout and ends by the deadline, or is empty |
| Retry.RunWithRetry | src/cmd.rs:939-1001 | the loop performs only runs of the specification Follows, in which every attempt may start, its result is one its budget and the flag allow and each follows a retry and its delay, at once if the calls take no time; it hands out stdin attempt by attempt, leaves no child of any attempt, sends SIGTERM only while the flag is set, and overruns the deadline by at most the last delay, a grace and the calls' own time; a flag set for good ends it within one poll interval and a grace |
| Retry.CheckAndRun | src/cmd.rs:954-970 | an attempt is started only when the check allows it, cancellation before deadline; its result reports the one outcome its own children came to, with the cause of every signal they were sent; a refused one spawns and signals nothing and takes no stdin |
| Retry.AfterRun | src/cmd.rs:971-999 | a result ends the run exactly when it is a success, a cancellation, not retryable or the last; otherwise the delay is slept in full unless the flag is seen |
| Retry.RetryAccounting | src/cmd.rs:951-1000 | at most one attempt more than there are delays; an error counts the attempts made, plus one when the check stopped the run, saturated at 4294967295, and is otherwise the last attempt's own, status, duration and output included; a success or cancellation is the last attempt; delays are slept |
| Retry.NoneAfterCancel | src/cmd/preflight.rs:20-27 | no attempt starts once the flag is set for good, and none at all if it already was, whatever the deadline |
| Deadline.DeadlineHoldsIff | src/cmd.rs:960-995 | over every run whose calls take no time, whatever the flag, and whether waits may fail or not, the deadline is met iff neither a delay nor a grace period overruns it from an instant at which the policy lets an attempt start |
| Deadline.LateByOnePause | src/cmd.rs:984-995 | a run is late by at most the last delay slept, or if an attempt's result ends it by the grace period when that is a cancellation, and else not at all |
| Deadline.DeadlineIsMissed | src/cmd.rs:984-995 | a concrete run that ends after its deadline, by its delay
| Deadline.GraceMissesDeadline | src/cmd.rs:1257-1318 | a concrete run without delays that ends after its deadline, by the grace period |
| Retry.RunCmd | src/cmd.rs:854-912 | an async reader is refused untouched by run; a flag set for good means no child and no stdin taken; otherwise every attempt has the budget the command's timeout and deadline leave, each retry follows a failure its policy accepts after the policy's delay, and retrying stops only at a result not accepted, the last delay, the flag or the deadline; without a policy one attempt, within the timeout; no child is left; Ok only if the last attempt's stages all succeeded; bounded by deadline and flag |
| Retry.RunUnretried | src/cmd/async_cmd.rs:53-66 | without retries only the async runner refuses to start past the deadline, and then spawns nothing and takes no stdin; otherwise one attempt, whose outcome and signals have their causes, inside the deadline |
| CmdDisplay.SingleQuote | src/cmd_display.rs:162-174 | the appending loop writes the quoted form that the round trip is proved of |
| CmdDisplay.Fmt | src/cmd_display.rs:92-113 | the printing loops write the line that the round trip is proved of |
| RenderTheorems.PosixRoundTripIff | src/cmd_display.rs:92-174 | an independent POSIX lexer and grammar read the non-secret render back as exactly the program and arguments of every stage, however the shell settles what the standard leaves open, iff no program made of safe characters is NAME: or has a later = after a non-name |
| RenderTheorems.BashRoundTripIff | src/cmd_display.rs:127-150 | bash does iff no program is a bare NAME+=value |
| RenderTheorems.ReadBack | src/cmd_display.rs:92-122 | each dialect, for every choice left open, reads a render as the argv of every stage, or not at all when a program is one it takes for something else |
| RenderTheorems.BashAppendCounterexample | src/cmd_display.rs:143-150 | the program a+=b is printed bare, and bash does not read it as a command |
| RenderTheorems.NameColonCounterexample | src/cmd_display.rs:136-141 | the program a: is printed bare, though section 2.4 reserves it |
| RenderTheorems.EqualsCounterexample | src/cmd_display.rs:143-150 | the program /=b is printed bare, though a shell may read it as an assignment |
| RenderTheorems.RenderIsInjective | src/cmd_display.rs:92-122 | two pipelines with the same render are the same |
| RenderTheorems.NothingBareIsSpecial | src/cmd_display.rs:154-160 | in both dialects the line holds only literal words and the pipes between stages: no operator, expansion, comment or pattern |
| RenderTheorems.SecretShowsExactlyPrograms | src/cmd_display.rs:99-101 | secret renders are equal iff the programs are, whatever the arguments |
| RenderTheorems.RenderJoins | src/cmd_display.rs:92-113 | the render of stages put together is the renders with a pipe between |
| RenderText.QuoteIs | src/cmd_display.rs:162-174 | a word is quoted by single quotes around it, each quote of its own closing them, escaped, and opening them again |
| RenderText.BareIff | src/cmd_display.rs:119-126 | an argument is printed as it is iff it is not empty and has only the listed characters |
| RenderText.ProgramBareIff | src/cmd_display.rs:127-150 | and a program iff besides no shell is sure to read it as an assignment and none reserves it |
| RenderText.SecretHidesArgs | src/cmd_display.rs:99-101 | a secret command shows its program and one fixed mark, for whatever arguments |
| RenderText.ArgsFollow | src/cmd_display.rs:102-106 | any other shows its program and each argument after one space, in order |
| RenderProofs.ProgramReadsAsCommandIff | src/cmd_display.rs:127-141 | in either dialect, for every choice the standard leaves open, the printed program is read as neither a reserved word nor an assignment exactly outside those exceptions |
| RenderProofs.ReservedAreQuoted | src/cmd_display.rs:136-141 | every word that POSIX lists as reserved or as one a shell may reserve, and every one that bash does, is quoted, whether listed or caught by needs_quote |
| RenderProofs.IsAssignmentIsRule7 | src/cmd_display.rs:143-150 | is_assignment holds of exactly the bare words that rule 7 of section 2.10.2 makes assignments in every shell; those it lets some shell so read are the ones with a = past the first character |
| CmdTree.Flatten | src/cmd.rs:136-147 | the explicit stack yields the recursive left-to-right leaves, and ends |
| CmdTree.EditChangesLastStage | src/cmd.rs:125-134 | a builder on the rightmost stage changes the last stage and no other |
| CmdTree.PipeIsAssociative | src/cmd.rs:366-380 | nesting of pipes makes no difference to the stages, the display, the secret or the pipeline's settings, which are the first command's |
| CmdTree.PipeRendersAsPipe | src/cmd.rs:693-702 | a piped command renders as the renders of its parts with a pipe between, each as secret as the whole |
| CmdTree.SecretOfAnyPartHidesAll | src/cmd.rs:366-380 | with a secret on either side, renders of pipes are equal iff their programs are |
| ProgramSearch.FirstRunnable | src/cmd/program.rs:93-110 | the early-exit loop answers with a path iff it is the program in an absolute entry, with one slash between unless the entry ends in one, is runnable, and every earlier entry is absolute and holds nothing runnable |
| ProgramSearch.ResolvesIffCertain | src/cmd/program.rs:93-110 | it answers with a path iff the OS runs that path however it settles every unsure, relative or empty entry |
| ProgramSearch.Resolve | src/cmd/program.rs:81-89 | an answer only for a bare name without NUL, and then exactly that file, which is one the OS is certain to run |
| ProgramSearch.ApplyTo | src/cmd/program.rs:42-56 | the calls on Command give the child the arguments and working directory set and, for every parent environment and key, the last value the builder set; failing that nothing if it was removed or the environment cleared; and else the parent's |
| ProgramSearch.InheritsPathIff | src/cmd/program.rs:36-40 | the check holds iff the child is given the parent's PATH, whatever it is |
| Tail.DrainToSuffix | src/error.rs:275-279 | draining at the next boundary gives the specified suffix |
| Tail.CeilCharBoundary | src/error.rs:275-279 | looking at no more than four bytes finds the least boundary |
| Tail.KeepsLongestSuffix | src/error.rs:275-279 | the tail of any UTF-8 text is UTF-8 and the longest such suffix within 131072 bytes: all of it if it fits, else at least 131069 bytes |
| Tail.ByteTailIs | src/error.rs:269-272 | the tail of any bytes is their last 131072, or all there are |
| Tail.CharLenIff | src/error.rs:275-279 | what counts as a character of UTF-8 is exactly the shortest encoding of one Unicode scalar value |
| Tail.TruncationIsIdempotent | src/error.rs:275-279 | cutting twice cuts nothing more |
| Tail.AgreesWithByteCutIff | src/error.rs:269-279 | the text cut and the byte cut agree iff the byte cut leaves valid UTF-8 |

## Left out

- Poisoned mutexes and panics inside the shared handle; a panicked stderr thread is modelled.
- `wait_timeout` of the handles as a measure of time: in the interleaving machine it may give up at any child.
- Byte-level stdin, `take_stdin`, feeder threads and the joins after the waits: their time is overhead, so a grandchild that keeps a pipe open is not bounded.
- Deadline.DeadlineHoldsIff: speaks of runs in which the calls themselves take no time; with overhead the bound is in the contract of RunWithRetry. An exit may be noticed at any instant of its window; the async runner with cancellation looks once every poll interval, so for it the late run that a broken condition stands for may need an exit between two looks. Where waits may fail it is about the sync runner.
- Retry.RunWithRetry: of the signals it keeps that SIGTERM went out only while the flag was set and nothing went to a reaped child; the full account of each attempt is in the contract of CheckAndRun.
- Supervisor.WaitSingleAsync: a child that cannot be polled is left running by it, as in the source, and killed when the attempt drops it; reaping by the runtime afterwards is not modelled.
- Attempt.Execute: an async attempt that fails to spawn all its stages kills the others by dropping them but does not reap them before returning.
- Termination of waits on a child that never exits with no timeout and no cancellation: every child is given an instant, as late as one likes, by which it exits by itself.
- What output an attempt captures: its bytes are arbitrary, and only how they are reported is modelled.
- Time bounds when `kill` or the blocking `wait` fail.
- Lossy decoding: stderr is bytes, and words are the decoded text; words that hold NUL cannot be run by any shell.
- What a command name runs: functions, built-ins, and the names section 2.9.1 leaves unspecified.
- In the shell reader, alias substitution, history, and the results of `$` and backquote expansion (a line that has one is not read).
- `probe`, `format_of` and `interpreter`: what a candidate file is, is a parameter of the search.
- The backoff schedule (an arbitrary finite list of delays), the retry predicate (an arbitrary function) and `default_transient`.
- `flatten_owned` and `flatten_tree_owned`, which repeat `flatten` on owned trees.
- `spawn`, `spawn_and_collect_lines`, the Windows branches, redirections other than their failure, `MockRunner`, the `Runner` trait, Debug and error text.
