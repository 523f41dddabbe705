# Process wrapper: a verified model

The process wrapper runs several commands in one container, restarts them, probes their health, and can
hold a command back until it owns a shared lock kept in etcd. This project models the two parts of it
where many things happen at once, and the sequential code around them, and proves what they promise.

**The shared lock.** `LockProtocol` is the lock as a state machine: any number of stateless servers, any
number of clients, and the etcd store. One request is four store calls (get, grant, guarded transaction,
renewal), each a step of its own, and between any two of them leases expire, calls fail, replies are lost
and other requests run. `LockService` is the atomic create-if-absent service that this protocol
implements, with the proof that it does. `LockServer` and `AcquireLock` are the servers' and the
wrapper's own code, imperative and in the source's order, proved for every script of what the rest of the
world does in between. `LeaseTiming` is the holder's side: how soon a holder that lost its lease is
killed, and how fast its probe loop must turn never to lose it. `Decimal` is the text form of lease ids.

**The supervisor.** `Supervisor` is the machine of the scheduler, the chains of `Run` frames, the routines
of each process, the signal handler and main's WaitGroup, with its invariant; the shared maps are keyed by
process name, which two chains may share. `SupervisorResults` is what follows for every run, `Signals` what
a graceful shutdown does over a run and which processes it reaches, `Marks` that the killed marks never
decide a restart, and `Staging` the runs that show what can happen. `Fleet` runs any number of wrappers and
the lock service together, and `Overlap` adds how soon a process that lost its lease is killed. `RunFrames` is `Run` as the recursive code it is. `Schedule` is the scheduler and
the names it gives out.

**Sequential parts.** `Probes` is the probe loop and the health checker, with other routines writing to the
same maps, `ProbeMeaning` what the loop's counter, kill and status mean in terms of all the rounds so far.
`Health` is the shared state with the floating-pid probe, `RestartHistory` its counting. `ProcessStats` is
the CPU and memory routine, `StatFile` the text it reads, `Environment` the merged environment and its
"key=value" form.

What is assumed of etcd, of the operating system and of time is written where it is used: into
`LockProtocol.Enabled` and `LockProtocol.Next` (the transaction is one step, lease ids are fresh, a put on a
dead lease fails, expiry unbinds the key, a lease that is gone stays gone, nobody else writes the keys), into
`Supervisor.Guard` (pids are not reused, a command whose context is done refuses to start), and into the
hypotheses `RestartHistory.NonDecreasing` and `ProcessStats.Plausible`.

## Where the code and its names or comments differ

The model follows the code in each case.

- A lease length that does not parse falls back to a constant named as ten seconds but read as ten
  nanoseconds, which is zero whole seconds (`LockServer.LeaseSecondsBounds`).
- A keepalive for text that is not a number answers 500, which the lock probe takes for success, live
  lease or not (`LockServer.ProbeMeansLive`). Lease text from a 201 always parses (`LockServer.HandleLease`).
- With a post-start hook a process whose probes fail once after the hook has run is never reported healthy
  again, and its failures are never forgotten (`ProbeMeaning.NoRecoveryWithHook`, `ProbeMeaning.KillsExactly`).
- A floating-pid threshold of ten or more can never fail (`RestartHistory.VerdictAgrees`).
- main adds its token after launching the scheduler, so the counter can go below zero
  (`SupervisorResults.WaitGroupConservation` says exactly when, `Staging.SchedulerMayPanic` that it can for
  every configuration).
- The termination signal passes over a process that is not recorded yet, in any configuration
  (`Signals.UnrecordedIsPassedOver`), and one whose name another has been recorded under since
  (`Signals.SignalledExactly`). So it reaches every recorded child only for configurations whose process
  names are distinct (`Signals.ReachesRecordedOf`), and every child for none
  (`Signals.ReachesEveryChildOnlyOfNone`).
- A handler goes on after a request that is no POST or was not read: the lease is acquired and the early
  status hides it (`LockServer.HandleLease`).
- A process name with a closing parenthesis followed by spaces moves the columns of the stat file
  (`StatFile.FieldsFound`).
- A shutdown that falls between the two guards after an exit, or a mark that another chain of the same name
  clears there, can end the command without cancelling its routines (`RunFrames.AfterExit` says exactly when).
- Distinct names in the configuration do not make distinct process names (`Schedule.NamesDistinct`).
- With a one-second lease and a one-second period, as in `examples/shared-lock.yaml`, the condition of
  `LeaseTiming.TimedRetention` does not hold, and with the defaults, two seconds and a delay of five, it
  never does (`LeaseTiming.DefaultsLoseTheKey`).

## Model

| member | source | states |
|---|---|---|
| LockProtocol.RequestExclusion | pkg/lease/lock/lock.go:100-151 | over every run, two requests for one key are never both answered 201 with live leases, and the key is bound to exactly the winner's lease |
| LockProtocol.ClientExclusion | pkg/process/process.go:305-329 | the same for clients that lose replies and retry: at most one holds a live lease of a key |
| LockProtocol.LeaseBindsOneKey | pkg/lease/lock/lock.go:118-147 | over a whole run a lease id binds at most one key |
| LockProtocol.LosersLeaseNeverBinds | pkg/lease/lock/lock.go:134-138 | the lease granted to a request that lost the race never binds a key afterwards |
| LockProtocol.ExpiredStaysExpired | pkg/lease/lock/lock.go:154-163 | a lease that has expired is never live and never bound again |
| LockProtocol.BoundExactlyWhileLive | pkg/lease/lock/lock.go:126-147 | over every run a bound key stays bound to its lease if and only if the lease is live, so an acquisition nobody was told of is freed by that one expiry |
| LockService.SimulateStep | pkg/lease/lock/lock.go:100-151 | each protocol step is zero, one or two steps of the atomic service, which decides at the get that finds the key or at the transaction |
| LockService.Refinement | pkg/lease/lock/lock.go:100-151 | every interleaved run of the protocol is a run of the atomic create-if-absent service with the same owners and answers |
| LockService.AnswersMean | pkg/lease/handlers/lease.go:78-86 | 201 means this request created the key, 202 if and only if it found the key taken, and a key's owner is a request for that key that acquired it |
| LockService.UncontendedAcquires | pkg/lease/lock/lock.go:100-151 | from any reachable state a client alone that posts for a free key comes to hold a live lease bound to the key, of the length asked for |
| LockService.ErrorTellsNothing | pkg/lease/lock/lock.go:124-132 | two runs in which the client sees the same error answer, with the key bound by its request in one and free in the other |
| LockServer.BehaviourIsRun | pkg/lease/lock/lock.go:100-151 | what the imperative server code does, with everything in between, is a run of the protocol |
| LockServer.GetLease | pkg/lease/lock/lock.go:90-152 | for every interleaving its result and status are the request's recorded answer, true at one instant inside the call; it fails only for a failed call of its own or a lease it could not get or keep, wins only the lease offered, renewed for the whole length, and uninterrupted answers exactly as its calls and the key let it |
| LockServer.CreateKey | pkg/lease/lock/lock.go:115-151 | once the key was seen absent: it fails only if etcd gave no lease, a call failed or the lease expired, and uninterrupted exactly then |
| LockServer.CommitKey | pkg/lease/lock/lock.go:124-151 | once there is a lease: the transaction's instant is where a 201's lease bound the key, or where a 202 found it taken; it fails only if a call fails or the lease is gone |
| LockServer.Renew | pkg/lease/lock/lock.go:142-151 | one renewal; the request is won with the status 201 and a lease of full length, or the call failed or the lease is gone and the status is 500 with the key bound |
| LockServer.ReadHTTPBody | pkg/lease/handlers/lease.go:22-38 | another method than POST writes 400 and gives no text, a failed read or close writes 500 and gives what was read |
| LockServer.HandleLease | pkg/lease/handlers/lease.go:55-87 | for any request and any interleaving the lease is asked for, for the header's whole seconds; the status is 201, 202 or 500 exactly as the request was decided, unless an early status hides it; 500 only for a reason, 201 for the lease offered, and uninterrupted exactly as calls and key let it; the body parses back to the lease won, or to zero |
| LockServer.HandleKeepAlive | pkg/lease/handlers/lease.go:88-105 | an intact post is answered 200 if and only if its text names a live lease and the call succeeds, 204 for any other number, 500 for text that does not parse; which lease is renewed, whatever the status |
| LockServer.ProbeMeansLive | pkg/process/probe_lock.go:19-36 | for text of a 201 the probe passes if and only if the lease is live and the call succeeds; the probe is evidence of a live lease exactly when the text parses |
| LockServer.LeaseSecondsBounds | pkg/lease/handlers/lease.go:68-78 | the length is the header's cut towards zero by less than a second, exact for whole seconds only, zero below one second either way, and zero in the fallback |
| Decimal.RoundTrip | pkg/lease/handlers/lease.go:83-97 | parsing the text of any 64-bit lease id gives the id back |
| AcquireLock.CreateLease | pkg/process/process.go:223-282 | no reply exactly for a busy client, a used number, a lost reply or a client made to give up; text exactly for a 201, naming a lease this request won for the command's key during the call, just renewed for the length asked for |
| AcquireLock.AcquireSharedLock | pkg/process/process.go:284-330 | the status entry is removed and the default length set; it ends with the text of a lease won for this key during the call by a try that asked for the configured length, just renewed for it; left alone, it ends without one only if every try it came to was posted and its reply lost or no 201, up to one that found the context done |
| LeaseTiming.LostLeaseFailsProbe | pkg/process/probe_lock.go:19-36 | after the lease has expired every later lock probe fails, whatever happens at the servers |
| LeaseTiming.BoundedOverlap | pkg/process/process.go:563-599 | after the lease has expired no round passes and the process is killed within the threshold less the failures already counted |
| LeaseTiming.BeatsAreSpaced | pkg/process/process.go:563-640 | start-up and period, each with a round's work, below the whole-second length keep any two keepalives less than the length apart |
| LeaseTiming.AcquiredIsJustRenewed | pkg/process/process.go:311-322 | a lease the acquire loop ends with is freshly renewed, which is where retention starts |
| LeaseTiming.TimedRetention | pkg/process/process.go:493-640 | a holder whose loop is that fast keeps its lease live, its key bound and every other request out, over every run of everybody else |
| LeaseTiming.RetentionExactly | pkg/lease/lock/lock.go:154-163 | a lease just renewed survives every run in which the keepalives arrive at the given times if and only if its length is positive and no two are that far apart |
| LeaseTiming.SpacedExactly | pkg/process/process.go:493-640 | every loop within given times of work and sleep is spaced if and only if start-up and period, each with a round's probes, are below the lease length |
| LeaseTiming.DefaultsLoseTheKey | pkg/process/process.go:449-462 | with the default length and delay a holder that has just won can lose the key before its first keepalive |
| Probes.CheckResults | pkg/process/process.go:573-603 | the failing results are added one by one and the first to reach the threshold kills and marks |
| Probes.ProbeRunner | pkg/process/process.go:497-643 | the loop's counter, hook runs, end and the shared maps are those of the fold over its rounds, whatever others write in between |
| Probes.ProbeRound | pkg/process/process.go:506-642 | one turn of the loop: its writes, counter, hook run and end |
| ProbeMeaning.EndsAsTold | pkg/process/process.go:508-518 | for any rounds: up to the first that is cancelled or finds a shutdown the loop is as results and hook make it; there it stops for that reason, counting, killing and writing nothing more |
| ProbeMeaning.NothingProbed | pkg/process/process.go:567-571 | with nothing to probe the first round decides: nothing written when told to stop, else the hook runs once and the status is true exactly without a hook or if it succeeds |
| ProbeMeaning.ThirdFailureKills | pkg/process/process.go:464-470 | no threshold written means the third failure kills and the second does not |
| ProbeMeaning.LimitInNumbers | pkg/process/process.go:464-470 | three failures kill when no threshold is written, one when less than one is, and otherwise as many as written |
| ProbeMeaning.OwnEntriesOnly | pkg/process/process.go:573-637 | a round writes to its own command's entries only |
| Probes.HealthChecker | pkg/process/process.go:476-495 | the status starts out false and the loop runs with the default threshold filled in, or the hook alone decides when there is no readiness section |
| ProbeMeaning.LoopMeaning | pkg/process/process.go:506-642 | after any number of rounds a running loop has counted exactly the failures since the last reset, stays below the limit, and has run the hook at most once; a stopped one died of its probes or its hook |
| ProbeMeaning.KillsExactly | pkg/process/process.go:573-637 | whatever others write: killed for probes if and only if some stretch without a reset holds the limit of failures before the hook failed; for the hook if and only if its run fails first; a killed process is marked, and its status is false, or gone if it was killed for its probes and holds a shared lock |
| ProbeMeaning.StatusMeaning | pkg/process/process.go:604-638 | with no other writer to the entry, the status is "the last round all passed" without a hook, "the hook succeeded and no round failed since" with one; the count is the failures since the last reset with any writers |
| ProbeMeaning.NoRecoveryWithHook | pkg/process/process.go:618-637 | with a hook, one failed round after the hook has run keeps the status from ever being true again |
| ProbeMeaning.FailingRoundsKill | pkg/process/process.go:579-599 | rounds with a failure each kill after at most the limit less the count |
| SupervisorResults.ReachableInv | pkg/process/process.go:334-434 | the invariant of the supervisor machine, whose maps are keyed by names that chains may share, holds in every reachable state |
| SupervisorResults.WaitGroupConservation | pkg/process/process.go:93-142 | the counter is main's token less the scheduler's plus all frames on the stacks; below zero exactly if the scheduler finished before main's add with every frame unwound, and only under a shutdown or with no commands |
| Staging.SchedulerMayPanic | main.go:255-258 | from every configuration the wrapper can come to a counter of minus one, with no commands by the scheduler's step alone |
| SupervisorResults.ZeroIsFinal | pkg/process/process.go:427-430 | once main waits on zero every command has ended, no child is unwaited for, and it stays so |
| SupervisorResults.MainReturnsWhenDone | main.go:255-259 | main returns only when all commands have ended, and then a shutdown was requested unless there were none |
| SupervisorResults.OneFramePerStart | pkg/process/process.go:427-430 | until a command's chain unwinds every frame it opened is on its stack, one for each process started and one more on its way to a start |
| SupervisorResults.NoCommandDropped | pkg/process/process.go:412-434 | a chain ends without restarting only under a shutdown |
| SupervisorResults.ShutdownStartsAtMostOne | pkg/process/process.go:393-431 | after the flag is set each command starts at most one more process, none once its child runs or its exit is examined |
| SupervisorResults.ShutdownTerminates | pkg/process/process.go:393-434 | after the flag is set only a fixed number of moves remain (steps of chains, scheduler and main, deaths, failed starts), under every interleaving |
| SupervisorResults.NoChainIsStuck | pkg/process/process.go:304-310 | with the context done every chain that has not ended can move or waits for its child or the scheduler only |
| SupervisorResults.ShutdownCompletes | pkg/process/process.go:393-434 | a run under the flag that has come to a done context and can make no further move has every command ended or the wrapper exited, after a fixed number of moves |
| SupervisorResults.SingleIncarnation | pkg/process/process.go:369-393 | at most one process of a command is not yet waited for |
| SupervisorResults.KillsHitTheirOwn | pkg/process/process.go:588-594 | a kill that finds a process kills the incarnation its routine was spawned for and nothing else |
| SupervisorResults.LockedStartsAreLeased | pkg/process/process.go:366-372 | every start of a locked command carries a lease issued to its own frame, and no two starts share one |
| SupervisorResults.NoLeaseNoStart | pkg/process/process.go:304-310 | leaving the acquire loop without a lease leads to no start |
| SupervisorResults.CancelAfterShutdown | pkg/signals/signals.go:33-53 | the handler is about to cancel the context, after the grace period or on an interrupt, only with the flag set; a context done without the flag is the pod status routine's doing |
| SupervisorResults.EarlierRoutinesCancelled | pkg/process/process.go:421-431 | before a command starts another process the routines of all its earlier ones have been cancelled |
| Signals.FlagsAreHistory | pkg/signals/signals.go:27-89 | over any run the context is done if and only if a grace period ended, an interrupt cancelled it or the pod status routine did; the flag is set if and only if a graceful or fast shutdown set it; main's and the scheduler's tokens likewise |
| Signals.GracefulShutdown | pkg/signals/signals.go:33-89 | when the grace period ends, over any run: routines cancelled, then flag, then signals, with no other handler step in between, and the flag set ever since; of the children there were at the signal exactly those recorded last under their command's name have been signalled; routines spawned last under their name by the cancelling have been cancelled; and then the context is cancelled |
| Signals.HandlerCompletes | pkg/signals/signals.go:82-89 | a run in which the handler has cancelled the context, and in which nothing can move any more, has ended every command or exited |
| Signals.ReachedExactly | pkg/signals/signals.go:64-80 | of the processes not yet waited for, the signal goes to those recorded last under the name of their command, and to no other (beyond those sent one before) |
| Signals.SignalledExactly | pkg/signals/signals.go:64-80 | a recorded process is sent the signal if and only if no process has been recorded under its name since (or it was sent one before) |
| Signals.ReachesRecordedExactly | pkg/process/health.go:143-153 | the signal reaches every recorded child in every run if and only if no two chains have the same name |
| Signals.UnrecordedIsPassedOver | pkg/process/process.go:369-376 | in every configuration with a command, a process started and not yet recorded is passed over |
| Signals.ReachesEveryChildOnlyOfNone | pkg/process/process.go:369-376 | the signal reaches every child, recorded or not, in every run, only if there are no commands |
| Signals.ReachesRecordedOf | pkg/process/process.go:104-139 | for a configuration: every recorded child is reached in every run if and only if every two scheduled commands are compatible |
| Signals.DistinctNamesNotEnough | pkg/process/process.go:110 | distinct names in the configuration with a recorded child that is passed over |
| Marks.FlagDecides | pkg/process/process.go:412-432 | an examined exit ends in a restart if and only if the flag is unset at its last step, whatever the marks |
| Marks.MarksNeverMatter | pkg/process/process.go:412-432 | over whole runs: of two states alike but for marks and the progress of examinations, whatever one can come to the other can, in a state alike |
| Marks.UncancelledEnd | pkg/process/process.go:413-432 | a chain whose examination is over has cancelled the routines of its last process unless its second guard read the flag and no mark |
| Marks.MarkedExactly | pkg/process/health.go:219-229 | over any run a name is marked if and only if a routine of a command of that name marked it and no chain of the name has cleared it since |
| Fleet.GrabIsFresh | pkg/process/process.go:311-322 | a lease delivered to an acquiring command was never acquired before by any frame of any wrapper |
| Fleet.SupRun | pkg/process/process.go:284-372 | a run of all wrappers and the lock service is, for each wrapper, a run of the supervisor machine |
| Fleet.LockedStartsHoldWonLeases | pkg/process/process.go:338-372 | each start of a locked command carries a lease the service answered 201 for, to that command, in that frame, and no other start in any wrapper carries it |
| Fleet.OneLiveHolder | pkg/process/process.go:338-372 | of all processes ever started for a key, in any wrappers, one at most carries a live lease, and the key is bound to exactly that lease |
| Overlap.LapsedIsKilled | pkg/process/process.go:563-599 | in a run of all wrappers, a process whose lease is not live passes no further round and is killed within its threshold less the failures counted |
| Overlap.AllButOneAreKilled | pkg/process/process.go:563-599 | of any two processes started for one key one at least has no live lease, and one that has none is killed within its threshold of further rounds |
| RunFrames.AfterExit | pkg/process/process.go:412-432 | restart if and only if the last read of the flag is false; the marks, set or cleared by whom it may be, decide nothing; the routines are left uncancelled exactly if neither guard holds for what it reads |
| RunFrames.Run | pkg/process/process.go:334-434 | each process started is recorded with its pid and start time; a finished call gives back exactly its one token however deep it nested; an unfinished one holds a token for each frame |
| RunFrames.AccountMeaning | pkg/process/process.go:427-430 | a chain ends after k restarts exactly if every process up to it started and the life after the k-th is the first to meet a shutdown; with the flag set beforehand the first process is the last |
| Schedule.NewSchedule | pkg/process/process.go:93-142 | one token for each run launched, its own given back, and the runs are the unskipped commands with replicas expanded |
| Schedule.UnskippedMeaning | pkg/process/process.go:104-107 | exactly the commands whose names are to be skipped are left out |
| Schedule.RunsMeaning | pkg/process/process.go:108-133 | the runs are the commands without replicas and the numbered copies of the others, and no more |
| Schedule.OnlyPlainRunsHaveHooks | pkg/process/process.go:111-122 | a run has a hook or a directory only if it is a command without replicas |
| Schedule.NamesDistinct | pkg/process/process.go:107-133 | process names are distinct if and only if plain and replicated commands have different names among their kind and no plain one is named like a replica |
| Schedule.DistinctNamesMayClash | pkg/process/process.go:110 | a configuration with distinct names whose process names coincide |
| RestartHistory.WindowBounds | pkg/process/health.go:170-182 | for any history and non-decreasing clock readings the count lies between the two exact window counts |
| RestartHistory.KeptCount | pkg/process/health.go:143-153 | for any test that later starts pass whenever earlier ones do, the count over the kept ten starts is the count over all starts, capped at ten |
| RestartHistory.VerdictAgrees | pkg/process/probe_floating_pid.go:20-31 | the verdict on the kept history is the verdict on all starts, for every history and every reading, if and only if the threshold is below ten; from ten on it always passes |
| RestartHistory.VerdictBounds | pkg/process/health.go:170-182 | for a clock that moves during the loop: when the verdict must pass and when it must fail, in exact ages over all starts |
| Health.State.SetPid | pkg/process/health.go:143-153 | the pid recorded, and exactly the last ten of all starts ever made kept |
| Health.State.NumOfRestarts | pkg/process/health.go:170-182 | the loop counts the recent starts with the clock read afresh for each |
| Health.State.GetPids | pkg/process/health.go:193-201 | one entry for each recorded name, and exactly the recorded pids |
| Health.FloatingPid | pkg/process/probe_floating_pid.go:20-31 | with defaults filled in and any clock readings in an interval: healthy if the starts ever made within the period of the first reading do not exceed the threshold, unhealthy if those within the period less a second of the last do; exactly so for a steady clock |
| ProcessStats.NothingLost | pkg/process/process_stats.go:35-46 | an all-zero sample that counts as failed has lost no CPU time |
| ProcessStats.FailsMeaning | pkg/process/process_stats.go:35-36 | a reading fails exactly if there is none, or no CPU time and no memory |
| ProcessStats.GetStats | pkg/process/process_stats.go:19-71 | the counter's total is the last good CPU reading, the routine gives up exactly at the first three failures in a row, and marks the process exactly if a good reading is over the limit |
| ProcessStats.ProcStat.Stat | pkg/stat/stat.go:41-62 | what the file says, by column, clock ticks and page size, and the difference to the last good reading, which a failed one leaves alone |
| ProcessStats.ReadingOfLine | pkg/stat/stat.go:47-57 | for a name that moves no column the reading is the 12th and 13th field in hundredths of a second and the 22nd in pages of 4096 bytes, text that is no number counting as zero |
| ProcessStats.NoReading | pkg/stat/stat.go:42-55 | there is no reading if and only if there is no file, no ')' in it, or fewer than 22 spaces after the first |
| ProcessStats.OverLimitMeaning | pkg/process/process_stats.go:58-60 | over the limit: a good reading above a positive limit in millions of bytes |
| StatFile.FieldsFound | pkg/stat/stat.go:47-55 | the fields are found one column on, moved by the spaces in the name after its first closing parenthesis; in place if and only if there are none |
| Environment.ParseEnv | pkg/process/process.go:723-731 | the loop splits at the first '=' or finds none |
| Environment.SplitEntry | pkg/process/process.go:213-221 | an entry splits back into its key and value if and only if the key holds no '=' |
| Environment.QuotesRemoved | pkg/process/process.go:716-721 | exactly one surrounding pair of quotes is removed |
| Environment.Trimmed | pkg/process/process.go:197 | trimming cuts all white space at both ends and nothing else |
| Environment.QuotedLine | pkg/process/process.go:191-203 | a line with white space around it and a value in double quotes defines the key as the bare value |
| Environment.PlainLine | pkg/process/process.go:191-203 | a value that stands in no quotes is kept as it is, but for white space at its end |
| Environment.LineDefinesNothing | pkg/process/process.go:191-203 | a line defines nothing if and only if it holds no '=' |
| Environment.Precedence | pkg/process/process.go:158-211 | the last line of the file that defines a variable wins, else the command's own value, else the wrapper's last, else it is not set |
| Environment.MergeEnvs | pkg/process/process.go:158-211 | every variable has the file's last value, else the command's, else the wrapper's last; gives up exactly when the file cannot be opened |
| Environment.ConvertEnvs | pkg/process/process.go:213-221 | in whatever order the map is walked, one entry for each key and nothing else |
| Environment.ConvertRoundTrip | pkg/process/process.go:213-221 | splitting every string again gives the map back if and only if no key holds an '=' |
| Environment.BuildEnvironment | pkg/process/process.go:339-340 | a process that splits its strings sees the merged values if and only if the command's own keys hold no '=' |

## Left out

- HTTP transport, TLS, JSON and the etcd client: requests, replies, losses and failed calls are steps and script entries; what decoding finds in a body is a parameter, and the client's own posts arrive as sent.
- Real processes, pipes, sleeps and wall-clock scheduling: starts, deaths and kills are steps, and the clock is any non-decreasing number.
- Probes other than the lock and floating-pid probes, and the hook's own work: each is an arbitrary truth value.
- Output, logs, metrics other than the CPU counter, the readiness file, preemption, Envoy drain, the pod status request and the health endpoints: only "the context may be cancelled without a shutdown" is kept.
- Configuration loading and duration parsing: a duration arrives parsed or not parsed; the file of variables arrives as the lines its scanner delivers.
- Main, the scheduler's concurrency and the signal handler are steps of the machine in `Supervisor` rather than classes: their meaning is in how they interleave.
- Signals.SignalledExactly: `signalled` is the pids taken from the map, in one step, as the code takes them under its lock; sending to each of them one after the other is not modelled, and a send to a process already gone does nothing.
- Supervisor.Next: a cancelled routine may go on for one more round in the code and for any number in the model, because no result needs it to stop.
- LeaseTiming.BoundedOverlap: for commands that are not replicated, because replicas overwrite each other's lease text; it bounds the rounds the holder survives, not wall time, and no claim is made while a shutdown stops the probes.
- Overlap.LapsedIsKilled: the same, for the processes of all wrappers.
- LockProtocol.ClientExclusion: says nothing of operating-system processes, because a holder whose lease has lapsed runs on until its probes kill it.
- ProcessStats.GetStats: floating-point rounding of the readings is not modelled, because the accounting argument does not depend on it; parsing a column as a number is a parameter.
