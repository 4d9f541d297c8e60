# Trading platform: verified protocols and backtests

A Dafny model of the parts of the trading platform that carry its promises: the event-log protocols
between daemons, console and operator, and the arithmetic and ordering of the backtests. Code that
changes state in the source is a class or a method here, proved against a specification function or
a step machine; what the source promises is then proved of that function or machine for all inputs
and all runs. `dafny verify dfyconfig.toml` checks the whole project (Dafny 4.11).

## What is modelled

**Data repair** (`RepairLog`, `RepairProtocol`, `RepairSafety`, `RepairLiveness`, `RepairProgress`,
`RepairTheorems`, `RepairCounterexamples`, `RepairVerdict`, `RedChecks`, `LockRace`, `DataRepairService`). Engines
insert requests into the application log; a daemon polls them past a volatile cursor, consults the
durable "a terminal row exists" guard, takes a mkdir/pid lock it shares with the data-operations
script, heals, and inserts one terminal row. `RepairProtocol` is a machine whose steps are single
inserts, lock operations, reads, exceptions, crashes and restarts, with any number of processes; a
request may carry any past timestamp when it becomes visible.
`DataRepairService.RepairDaemon` is the daemon in the form of its source; each of its methods returns
a ghost list of protocol steps and is proved to have moved the world exactly by them, so every theorem
about runs of the machine is a theorem about the methods. `LockRace` looks at the lock at the grain of
single file-system operations.

**Other protocols.** `AutotuneMachine` and `AarAutotune`: behavioral holds of the dispatch sweep.
`OperatorRuns`: the console's run queue and its two status views. `DefectRegister` and
`DefectRetention`: the join of three defect sources, and the cap that deletes review rows. `Cutover`: the
provider cutover pass.

**Backtests.** `CatalystSimulator`, `CatalystModes` and `CatalystSignals`: the barrier exit, the four firing
modes, and which signals they act on. `Momentum` and `MomentumBook`: the legacy and the vol-managed
rebalance, written separately and related by filter and scale, and what they buy. `Carver`: monthly hold intervals. `Drawdown`: the running-peak figures. `NoLookAhead`: two-run
properties of the selections. `Overrides`: the mutable override globals.

Each specification function is tied a second time to the rows, bars, costs and figures of the source, by a
lemma that does not name it; these lemmas have rows of their own below.

### Assumptions, and what happens without them

- One live daemon at a time (`solo` in `RepairProtocol.Enabled`). Without it exactly-once fails:
  `RepairCounterexamples.TwoDaemonsReplyTwice`, and fails exactly at an insert that another daemon's
  overtook after the guard: `RepairSafety.OneTerminalIff`.
- A request is prompt: its timestamp is its own and later than that of every request visible before it. The
  column is stamped when the inserting transaction starts and the row is seen when it commits
  (`platform/migrations/versions/20260511_0100_create_application_log.py:48-53`), so the code does not
  ensure this. The promise is made to each prompt request, whatever the other timestamps are. A
  request that is not prompt can be passed unanswered, and stays so until a daemon starts within
  the hour or the engine asks anew: `RepairCounterexamples.EqualTimestampsSkip`,
  `RepairCounterexamples.LateRequestSkipped`; exactly when, by what the daemon has polled, is
  `RepairProgress.ArrivalIff`.
- The cursor starts one hour back, by the daemon's host clock, which need not be the database's. Requests
  older than that are lost, and no prompt request else is: `RepairTheorems.LookbackIsTheLimit`,
  `RepairTheorems.ForgottenForever`.
- Log rows stay for as long as they matter. Every log write deletes rows older than seven days
  (`tpcore/logging/db_handler.py:193-210`), all types but the two review ones. That is a step of the hold
  machine, where it ends holds: `AutotuneMachine.HoldLapsesIff`. It is not one of the repair and
  operator machines, whose next poll and conflict check it leaves alone (an id asked for again
  after its terminal is deleted is answered again): `RepairTheorems.RetentionKeepsPoll`,
  `OperatorRuns.RetentionKeepsCheck`. Review rows have a cap of their
  own: `DefectRetention.ReopensIff`.
- In the protocol machine, acquiring the lock, reclaim included, is one step, and pids are never handed
  out twice. At the grain of single file operations exclusion holds exactly as long as no process removes
  the directory while another is past its mkdir, crashes and shutdowns included:
  `LockRace.OnlyLoudRemovalsBreakIt`.
- The console's conflict check and insert are one step. Nothing in the source makes them one
  (`OperatorRuns.SplitCheckAdmitsTwo`); with the two apart the spacing is kept exactly when no unresolved
  request closer than it comes in between them: `OperatorRuns.SplitSpacedIff`. The database clock and the
  console host's clock are two, and their skew is a parameter of both theorems.
- The other writers of holds (the supervisor in `ops/engine_supervisor.py`, the credibility and lifecycle
  pause checks in `tpcore/risk/lifecycle_pause.py`, the operator) hold an engine only when it has no
  current hold and under a class that is not the autotuner's; they may or may not escalate. Every id drawn
  by `uuid4` is new, and the rows of the hold log are recorded in insertion order. A pass over one engine is
  not interleaved with another writer, though it may stop after any of its inserts; without that a hold made
  between its read and its inserts is hidden: `AutotuneMachine.LatePairIff`,
  `AutotuneMachine.LatePairHidesHold`.
- Prices and returns are reals and never NaN; dates are day numbers; time is in microseconds.

### Where the code does not do what its text says

- The trailing stop of the catalyst simulator is described as a live exit
  (`catalyst/backtest.py:514-519`). It can never fire: `CatalystSimulator.TrailingStopNeverFires`.
- The repair daemon promises exactly one terminal "crash-safe across daemon restarts"
  (`ops/data_repair_service.py:23-30`). Never two holds; never zero holds only inside the lookback and for
  prompt requests.
- "every new request" of the poll (`ops/data_repair_service.py:452-454`) leaves out one that becomes visible
  after a later-stamped one was answered: `RepairCounterexamples.LateRequestSkipped`.
- The register says its rule is monotone when a defect is logged again (`ops/defect_register.py:112-116`).
  The cap on review rows can delete the older LOGGED and its RESOLVED and spare the newer LOGGED, so that a
  fixed defect reads open: `DefectRetention.RelogReopens`.
- Behavioral holds are "OPERATOR-cleared" (`ops/aar_autotune.py:11-13`), yet one ends uncleared when the
  retention deletes its HELD, its trigger still open: `AutotuneMachine.RetentionEndsHold`.
- "Reset per call" of the momentum globals (`momentum/backtest.py:99-100`) is true of what a run
  returns, not of `default_params()`, which reads the globals and which the Lab calls after its trials:
  `Overrides.DefaultsAreTrueIff`, `Overrides.DefaultsEchoTheLastRun`.
- The `finally` that resets the catalyst globals (`catalyst/backtest.py:1054-1056`) comes after the
  conversions: `Overrides.CatalystLeaksIff`.
- The job-status page and the active view disagree about finished runs exactly when a row follows the
  terminal one: `OperatorRuns.ViewsAgreeIff`; the lane daemon can write such a row.
- A cron run stops blocking operator requests when its first stage completes, because all its stages
  share one run id: `OperatorRuns.FirstStageClosesCron`.
- The monthly walk of the catalyst backtest has no guard on its window: a window of zero never ends, and
  a negative one walks backward out of the calendar and raises: `CatalystModes.WalkEndsIff`.
- The drawdown figures are described as the largest fall. They are that exactly when the worst loss below
  zero comes before a second positive equity value: `Drawdown.LargestFallIff`.
- A cutover is two statements outside a transaction: a failure between them flips the provider and loses
  its audit row for good, since later passes find the feed already there: `Cutover.NextPassCompletes`.

## Model

| member | source | states |
|---|---|---|
| RepairTheorems.ExactlyOnce | ops/data_repair_service.py:23-30 | Over every run of submits with any past timestamps, polls, replies, lock operations, exceptions, crashes and restarts of one daemon at a time, a request that is prompt (its timestamp its own and later than those of all requests visible before it), recorded after the live daemon's initial cursor and passed by its cursor, has exactly one terminal row; nothing is asked of the other timestamps |
| RepairSafety.NeverTwoTerminals | ops/data_repair_service.py:112-120 | Over every such run, with no assumption on timestamps, no request id ever has two terminal rows |
| RepairSafety.OneTerminalIff | ops/data_repair_service.py:112-120 | Over every run with any number of daemons, no id has two terminals if and only if no insert of the run was made by a daemon that another one's insert for the same id had overtaken since it passed the guard |
| RepairTheorems.UnansweredIsStillPolled | ops/data_repair_service.py:449-515 | An unanswered prompt request newer than the initial cursor is never at or below the cursor: the next poll returns it, so a batch abandoned by an exception loses nothing |
| RepairLog.PendingCounts | ops/data_repair_service.py:104-110 | A poll returns every request recorded after the cursor, as often as it is in the log, and nothing else |
| RepairTheorems.RepliesInAskOrder | ops/data_repair_service.py:473-493 | One incarnation answers distinct ids in the order in which they were first asked for: an earlier prompt asker is never answered after a later one |
| RepairTheorems.LookbackIsTheLimit | ops/data_repair_service.py:496-499 | Once the cursor has passed a prompt request among those for an id after the initial cursor, if there are any, the id is answered if and only if it was answered before this daemon started or was asked for after its initial cursor |
| RepairProgress.ArrivalIff | ops/data_repair_service.py:104-110 | In every reachable state of one daemon at a time: a request for a new id at a time no other request carries is never passed without its terminal, in any continuation in which the daemon lives and the timestamp stays its own, if and only if it becomes visible with a timestamp later than the cursor, the batch cursor and everything left of the batch |
| RepairProgress.BatchCanEnd | ops/data_repair_service.py:473-493 | No state is a dead end: from every state the invariants allow, the daemon's own steps and at most deaths of lock holders bring the batch to its end with every addressable request of it answered, the log growing by terminals of the batch only |
| RepairTheorems.ForgottenForever | ops/data_repair_service.py:496-499 | A request at or below every live cursor stays unanswered in every continuation of the run, with any number of daemons and restarts, until the engine asks for it anew or a daemon starts within the lookback of it |
| RepairTheorems.RetentionKeepsPoll | tpcore/logging/db_handler.py:206-210 | Deleting old rows whose requests are at or below the cursor leaves the next poll as it was, and what the guard answers for an id too, unless all its terminals were deleted |
| RepairCounterexamples.EqualTimestampsSkip | ops/data_repair_service.py:104-110 | A concrete run: two requests with one timestamp, the second deferred on the lock; the strict poll no longer returns it, and it has no terminal in any continuation in which the engine does not ask anew and no daemon starts within the lookback, while any poll from before its timestamp would return it |
| RepairCounterexamples.LateRequestSkipped | platform/migrations/versions/20260511_0100_create_application_log.py:48-53 | A concrete run: a request with a timestamp of its own, newer than the initial cursor, becomes visible after a later-stamped one was polled, and is lost in the same sense |
| RepairCounterexamples.StaleRequestLost | ops/data_repair_service.py:66 | A concrete run: a request recorded before a crash as long as the lookback is lost in the same sense |
| RepairCounterexamples.TwoDaemonsReplyTwice | ops/data_repair_service.py:164-171 | A concrete run: two daemons both pass the guard before either inserts, and one id gets two terminals |
| RepairSafety.LockSafety | ops/data_repair_service.py:254-275 | Over every run of any number of daemons and scripts, two live processes are never both in the critical section, and whoever is in it is named by the lock |
| RepairSafety.ReleasesAreOwn | ops/data_repair_service.py:288-291 | Neither the unconditional release of the finally block, nor that of a raising handler, nor the owner-checked one at shutdown takes the lock from another live process |
| RepairSafety.DeadHolderNeverBlocks | ops/data_repair_service.py:261-273 | A cleared request is deferred exactly when another live process is in the critical section; otherwise the acquire succeeds, dead holders included |
| LockRace.PidlessWindowAdmitsTwo | ops/data_repair_service.py:259-275 | A concrete schedule: between mkdir and the pid write a second process reclaims the directory and both are inside |
| LockRace.StaleVerdictRemovesLiveLock | ops/data_repair_service.py:269-273 | A concrete schedule: a process that has already judged the holder dead removes a fresh lock of a live process |
| LockRace.UninterruptedAcquireIsAtomic | ops/data_repair_service.py:254-275 | Uninterrupted, the single operations have exactly the effect of the protocol's one atomic acquire, from every state of the directory |
| LockRace.QuietSchedulesExclude | ops/data_repair_service.py:254-291 | Over every schedule of single file operations of any processes, with starts, crashes and the two-step shutdown release among them, if no removal runs while another process is past its mkdir, at most one process is ever past it |
| LockRace.OnlyLoudRemovalsBreakIt | ops/data_repair_service.py:269-275 | An operation leaves mutual exclusion intact for every quiet continuation if and only if it does not remove the directory while another process is past its mkdir; otherwise a continuation with both inside is given |
| RepairVerdict.CompleteConserves | ops/data_repair_service.py:378-443 | A COMPLETE reply splits the requested list, in order and with multiplicity, into healed and still-red, and is green exactly when every requested source is healed |
| RepairVerdict.EscalatesIffAttributable | ops/data_repair_service.py:396-444 | After a heal the reply is ESCALATED if and only if some requested still-red source was escalated by the healer; the reply names exactly the still-red, or exactly the healed, sources |
| RepairVerdict.VerdictIsOwed | ops/data_repair_service.py:352-444 | Over what the environment answered: no reply exactly when something raised before it; a validation stage that exited with c gives ESCALATED of the whole request, that code and no attempts; nothing red gives COMPLETE of the whole request; after a heal ESCALATED exactly when the healer gave up on a still-red source, with its iterations and the reasons it recorded last for those sources in the order requested, and else COMPLETE, split into the healed and the still-red sources |
| RepairVerdict.GreenIsEarned | ops/data_repair_service.py:357-398 | The engine is told that its data is good only when the validation stage exited with zero and the last reading taken shows no requested source red |
| RedChecks.AgreementCondition | ops/cutover_agent.py:86-96 | The daemon's still-red reading and the cutover agent's red-feed reading agree for every set of red checks if and only if the registry lists each source under the very names its specs carry |
| RedChecks.KeysAreCheckNames | ops/data_repair_service.py:123-139 | They agree in particular when every registry key equals its spec's check name |
| RedChecks.RedFeedIff | ops/cutover_agent.py:52-96 | A feed is red exactly when it is registered under the name of a check whose latest row is stale or below full confidence |
| DataRepairService.RepairDaemon.AcquireLock | ops/data_repair_service.py:254-275 | Held exactly when the named pid is alive; otherwise the lock now names this process |
| DataRepairService.RepairDaemon.ReleaseLock | ops/data_repair_service.py:278-291 | The owner-checked form leaves another process's lock in place, the other removes it |
| DataRepairService.RepairDaemon.SourcesStillRed | ops/data_repair_service.py:128-139 | The loop returns the requested sources with a red check, in the order requested |
| DataRepairService.RepairDaemon.Repair | ops/data_repair_service.py:357-444 | Inserts the one reply owed for what the environment answered (VerdictIsOwed, stated on the inserted row), or nothing when something raised before it or the insert was lost |
| DataRepairService.RepairDaemon.HandleRequest | ops/data_repair_service.py:299-446 | For each exit (dropped, lookup failed, already answered, malformed, deferred, healed, raised) the new log, lock and batch position, the reply owed being stated on the inserted row; and the call is a run of the protocol |
| DataRepairService.RepairDaemon.ProcessBatch | ops/data_repair_service.py:473-493 | The batch loop is a run of the protocol, moves the cursor only to polled requests, and with the lock free and nothing raising answers the whole batch |
| DataRepairService.RepairDaemon.Tick | ops/data_repair_service.py:496-515 | One round of the main loop is a run of the protocol, keeps at most one reply per id and leaves everything up to its cursor answered; an exception leaves the cursor where it was |
| AutotuneMachine.AtMostOneUnclearedHold | ops/aar_autotune.py:131-150 | Over every run, with a stop after any insert and the oldest rows deleted at any time, an engine has at most one uncleared hold, reading only the latest HELD (tpcore/supervisor_state.py) misses no hold, and every HELD of the autotuner's own class stands right behind the ESCALATED of its id unless a deletion fell between the two |
| AutotuneMachine.OthersNeedNotEscalate | tpcore/risk/lifecycle_pause.py:269-318 | A hold of any other class can stand without an ESCALATED, as the pause checks' do |
| AutotuneMachine.HoldLapsesIff | tpcore/logging/db_handler.py:206-210 | A deletion of old rows leaves an engine's current hold as it was exactly when its HELD is not among them; otherwise the engine reads as free, uncleared |
| AutotuneMachine.RetentionEndsHold | tpcore/logging/db_handler.py:70-73 | A concrete run: a hold whose trigger is still open ends with no CLEARED, and the next pass holds the engine under a new id; a cut between the pair leaves the HELD without its ESCALATED |
| AutotuneMachine.LatePairIff | ops/aar_autotune.py:131-157 | A pass that read no hold and inserts its pair after others have written keeps the invariant if and only if the engine still has no current hold at the insert |
| AutotuneMachine.LatePairHidesHold | tpcore/supervisor_state.py:37-75 | Otherwise both holds stand uncleared, the readers see the later only, and clearing that one makes the engine read as free |
| AarAutotune.HoldLog.MaybeClearBehavioral | ops/aar_autotune.py:160-175 | Inserts one CLEARED for a current behavioral hold when no hold-eligible trigger is open, and nothing otherwise |
| AarAutotune.HoldLog.DecideAndAct | ops/aar_autotune.py:131-157 | Inserts the prefix of its decision that gets through before an insert raises: nothing for a held engine or without triggers, an ESCALATED and a behavioral HELD for a systemic trigger, an ESCALATED alone for noise |
| AarAutotune.HoldLog.Autotune | ops/aar_autotune.py:178-186 | The swallowed-exception pass leaves the log of the machine's pass step and keeps the hold invariant |
| AarAutotune.EligibleIsSystemic | ops/aar_autotune.py:119-128 | Exactly an open drawdown period, or a loss cluster whose streak reads as five or more, holds an engine |
| AarAutotune.PassSettles | ops/aar_autotune.py:160-183 | After a completed pass, its two trigger readings being free to differ: a hold of another class, or a behavioral one with a hold-eligible trigger in the first reading, stands as it was; in every other case the engine is freshly held if and only if the second reading has a hold-eligible trigger |
| AarAutotune.SteadyPassSettles | ops/aar_autotune.py:160-183 | With one unchanged trigger set, and no hold of another class, a completed pass leaves the engine held exactly when a hold-eligible trigger is open |
| AarAutotune.ClearsOnlyBehavioral | ops/aar_autotune.py:168-175 | Any CLEARED a pass inserts, complete or not, is for the current hold, which is behavioral, with no hold-eligible trigger among those read |
| AarAutotune.RepeatPassIsQuiet | ops/aar_autotune.py:131-175 | A second completed pass over the same triggers holds and clears nothing; only escalate-only triggers are escalated again |
| OperatorRuns.UnresolvedRunsAreSpaced | console-api/data_pipeline.py:1398-1430 | In every log reachable by requests, aborts and other writers' rows, unresolved operator runs were requested at least 90 minutes and one second apart by the database clock, less the most by which the console host's clock is ahead of it; the database clock itself need not be monotone |
| OperatorRuns.SpacingIsTight | console-api/data_pipeline.py:1040-1048 | For every skew that distance is reached and no smaller one is: elapsed time is truncated to whole seconds before it is compared |
| OperatorRuns.AcceptedIff | console-api/data_pipeline.py:994-1052 | A request is accepted exactly when every unresolved operator run of the last six hours is past the watchdog and there is one or every cron run in flight is past it too, windows by the database clock and watchdog by the host's |
| OperatorRuns.AcceptedOverRows | console-api/data_pipeline.py:994-1052 | The same over the rows and in literal figures: the kinds that close a run, six hours, 90 minutes, and 5401 seconds |
| OperatorRuns.ActiveJobIs | console-api/data_pipeline.py:994-1060 | Which job is reported: the newest open request, or the newest open cron run when there is none, timed out exactly when it is past the watchdog |
| OperatorRuns.CronMaskedIff | console-api/data_pipeline.py:1036-1048 | With a host clock not ahead of the database's, a cron run in flight fails to block exactly when timed-out operator runs, and no younger ones, are in front of it |
| OperatorRuns.TerminalIsForever | console-api/data_pipeline.py:1007-1015 | Once a run has a terminal row no extension of the log makes it the active operator run again |
| OperatorRuns.FirstStageClosesCron | console-api/data_pipeline.py:1021-1038 | Once a cron run id has one stage-completion row, the conflict check behaves, in every extension, as if the run's start rows did not exist |
| OperatorRuns.SplitCheckAdmitsTwo | console-api/data_pipeline.py:1398-1430 | With check and insert as two steps, any log that accepts one request accepts two at the same instant, which breaks the spacing; uninterrupted they are the atomic request |
| OperatorRuns.LateInsertIff | console-api/data_pipeline.py:1398-1430 | An insert at any time behind an earlier accepting check leaves a spaced log spaced if and only if every unresolved request inserted since the check is at least the spacing older |
| OperatorRuns.SplitSpacedIff | console-api/data_pipeline.py:1398-1430 | Over every schedule of the checks and inserts of any number of connections and of other writers' rows, the log is spaced throughout if and only if no insert of a run still open is closer than the spacing to an unresolved request inserted since its own check |
| OperatorRuns.RetentionKeepsCheck | tpcore/logging/db_handler.py:206-210 | Deleting rows recorded before a cutoff outside the six-hour window changes no conflict check, when no run ends before it was requested or started |
| OperatorRuns.StatusIff | console-api/data_pipeline.py:1465-1479 | With distinct times, the page shows how a run finished exactly when the row that says so is recorded after every other row of it, QUEUED likewise for its request, and RUNNING in every other case with a row |
| OperatorRuns.ViewsAgreeIff | console-api/data_pipeline.py:1465-1479 | The two status views, the one ordered by recorded_at and the other by existence, agree after every inserted row on whether a run is over exactly when every non-terminal row that arrives after a terminal one is recorded before some terminal row, and the first terminal row is not recorded before any row already there |
| OperatorRuns.OrderedViewsAgreeIff | console-api/data_pipeline.py:1465-1479 | When rows are recorded in insertion order that says: no non-terminal row ever follows a terminal one of the run |
| OperatorRuns.AbortBeforeStartDisagrees | ops/operator_trigger_lane.py:267-285 | A concrete run: an abort before the daemon's start row leaves one view at RUNNING while the other lets the next request in |
| OperatorRuns.CanonicalStageIff | console-api/data_pipeline.py:1312-1347 | Exactly which stage each action may dispatch, given the allowlist |
| OperatorRuns.Console.RequestOperatorRun | console-api/data_pipeline.py:1288-1441 | Invalid exactly when the action dispatches no stage; a conflict names an open job within the watchdog; else the request row is inserted, and spacing is kept for every skew |
| OperatorRuns.Console.AbortOperatorRun | console-api/data_pipeline.py:1501-1530 | The abort row is inserted for any id and closes the run; the page then shows ABORTED unless a row of the run is recorded later than the abort, in which case its status is unchanged |
| DefectRegister.FixedIff | ops/defect_register.py:121-141 | Although only the earliest LOGGED is consulted, a ref reads as fixed exactly when any LOGGED of it is followed in time by any RESOLVED of it |
| DefectRegister.FixedIsForever | ops/defect_register.py:107-116 | Fixed is monotone along every extension of the log by further rows, back-dated ones included; deletions are DefectRetention's subject |
| DefectRegister.ClosedBy | ops/defect_register.py:98-101 | Exactly which next rows close an open defect |
| DefectRegister.ConsolidatedDefects | ops/defect_register.py:223-333 | The three loops and the sort yield one row for every ref any source knows, the engine's first, then the data lane's, then the review's, strictly ordered by (opened_at, ref) |
| DefectRegister.RowSays | ops/defect_register.py:233-330 | Exactly the refs that a ladder or the review log knows are listed; each row says what the first entry of the engine ladder, else of the data ladder, else the earliest LOGGED says, with lane, time, policy, state and the latest fix |
| DefectRegister.OneRowPerRef | ops/defect_register.py:230-232 | No ref is listed twice |
| DefectRegister.ArrivalOrderIff | ops/defect_register.py:243-252 | First-writer-wins is independent of a source's arrival order if and only if the source's rows of one ref are equal |
| DefectRegister.ArrivalOrderIsIrrelevant | ops/defect_register.py:332-333 | The whole listing is then the same whatever order the ladders return their entries in |
| DefectRegister.FixedRowsStayFixed | ops/defect_register.py:318-330 | A review row once shown as fixed is shown as fixed in every later listing of a log that only gained rows, unless an escalation with the same ref takes its place |
| DefectRetention.PrunedIff | tpcore/logging/db_handler.py:117-145 | The cap deletes a row exactly when it is older than the cutoff, at least 2000 rows come before it by (recorded_at, id) descending, and it is not a LOGGED without a RESOLVED at or after it |
| DefectRetention.ReopensIff | tpcore/logging/db_handler.py:117-145 | While no row of its own is added, some run of the cap and of other rows arriving shows a ref as open if and only if some LOGGED of it has no RESOLVED at or after it, or is among the newest 2000 with no RESOLVED ahead of it by (recorded_at, id) |
| DefectRetention.OpenIsNeverPruned | tpcore/logging/db_handler.py:98-109 | The cap, at whatever age, never makes an open review defect disappear or read as fixed |
| DefectRetention.RelogReopens | ops/defect_register.py:107-116 | Logging a fixed defect again after its last RESOLVED leaves it reading as fixed now and open after some later run of the cap |
| DefectRetention.ShelteredRowsStayFixed | ops/defect_register.py:318-330 | A ref none of whose LOGGED is so exposed is never listed as open by its review rows, whatever other rows arrive and whenever the cap runs |
| Cutover.FreshIff | ops/cutover_agent.py:116-220 | The parity gate opens only on a PASS of the pair at most 30 days old that no row of the pair comes after (a null timestamp comes after all), and always then when timestamps are distinct |
| Cutover.DecideFits | ops/cutover_agent.py:241-281 | Exactly which feeds meet each fate, over bindings, overlay and verdict rows: dormant without a fallback; already when the first fallback is in use; else applied when it has a PASS at most 30 days old that nothing came after and the last binding of its name is a fallback, and blocked otherwise (for distinct verdict times) |
| Cutover.AppliedMeansProven | ops/cutover_agent.py:241-281 | Nothing is cut over without such a PASS for the very provider cut over to, which is a declared fallback and was not live |
| Cutover.PlanBlocksIff | tpcore/providers.py:339-373 | After the gate, the legality plan still stops a cutover exactly when the last binding of the fallback's name is not a fallback |
| Cutover.Agent.RunCutoverPass | ops/cutover_agent.py:232-289 | A pass that returns holds every red feed on exactly the list of the fate that fits it, in order, and no other feed, has redirected exactly the feeds it applied to their first fallback, and has appended their audit rows (feed, provider demoted, provider promoted) in pass order; one that raises at any database operation has done so for a prefix of the feeds, and may have flipped the next one without its audit row |
| Cutover.SecondPassIsQuiet | ops/cutover_agent.py:232-234 | A second pass at any later time without new verdicts applies nothing: applied feeds are now already there, blocked and dormant ones stay as they were |
| Cutover.NextPassCompletes | ops/cutover_agent.py:232-234 | After a pass that raised anywhere, the next one applies exactly what it would have applied from the start save what is flipped already; with those verdicts still fresh the overlay ends as after one uninterrupted pass |
| Cutover.AuditNamesLiveIff | tpcore/providers.py:361-371 | The provider an audit row calls demoted, always the declared one, is the live one exactly when the overlay selected no other known provider |
| CatalystSimulator.SimulateTrade | catalyst/backtest.py:470-536 | The loop with high-water mark and trailing branch returns the first-passage trade |
| CatalystSimulator.TrailingStopNeverFires | catalyst/backtest.py:512-519 | While no barrier has been hit the high-water mark stays between the entry and +12%, and the trailing condition is false |
| CatalystSimulator.FirstPassage | catalyst/backtest.py:492-536 | The exit is the first bar after the entry that closes at -7% or below or +12% or above, or else the bar the holding period on, or the last there is; the reason says which, and the return is that bar's less the cost; a trade is made exactly when two closes are quoted from the entry date on and the first is positive |
| CatalystSimulator.LongerHoldIsMonotone | catalyst/backtest.py:501 | A longer holding period never changes a trade that exited at a barrier and never makes an exit earlier |
| CatalystModes.BuildTrades | catalyst/backtest.py:792-922 | The dispatcher and its loops return the trade list of the mode with the diagnostics parallel to it, or raise exactly where the walk leaves the calendar |
| CatalystModes.BuildTradesBeatOnly | catalyst/backtest.py:578-661 | The event-driven arm returns its mode's trades with parallel diagnostics |
| CatalystModes.BuildTradesBeatOnlyMacroExpansion | catalyst/backtest.py:696-789 | The regime-gated arm, a loop of its own, does the same against its own specification, with no trades when no bundle is attached |
| CatalystModes.PositiveBeatFiltersOff | catalyst/backtest.py:858-893 | The positive-beat trades are exactly the off trades whose ticker beat in the 30 days up to entry, an order-preserving subsequence |
| CatalystModes.MacroFiltersBeatOnly | catalyst/backtest.py:696-789 | The macro arm, specified separately, is exactly the event arm filtered by the regime at the event date: equal when every session is an expansion, empty without a bundle |
| CatalystModes.WalkEndsIff | catalyst/backtest.py:872-921 | The rounds of the walk's own loop come to an end if and only if the range is empty or the window is not zero, and end past the range, rather than in a calendar overflow, if and only if it is empty or the window is positive and the calendar has room for the last stride |
| CatalystSignals.UniverseGateIff | catalyst/backtest.py:539-575 | A name passes exactly with fifty closes up to the date, the last at ten dollars or more and above their mean, and twenty million shares over the last twenty |
| CatalystSignals.StopTradesAre | catalyst/backtest.py:872-921 | The trades of one stop of the walk are, one for one and in the order of the universe, those of the names with three insiders and a quarter of a million dollars that pass the gates and can be entered, each at the first passage exit |
| CatalystSignals.EventTradesAre | catalyst/backtest.py:608-661 | The event arm's trades are, one for one and in order, those of the events it acts on, entered from the day after the event |
| CatalystSignals.QualifyingAre | catalyst/backtest.py:613-618 | The events considered are exactly those of the universe within the range, with multiplicity, when the sort only reorders |
| CatalystSignals.WalkStops | catalyst/backtest.py:868-921 | The walk trades at its start and every window from it up to the end of the range, and nowhere else |
| CatalystSignals.ModesTrade | catalyst/backtest.py:792-922 | Which trades each mode makes: all stops, those with a positive beat in the thirty days before, the events, and the events in an expansion |
| Drawdown.CatalystMaxDrawdown | catalyst/backtest.py:936-943 | The single pass computes the running-peak drawdown of the compounded equity curve |
| Drawdown.RunningIsPairMaximum | catalyst/backtest.py:936-943 | On a positive curve the running-peak drawdown is the maximum over all pairs of an earlier and a later point, and lies in [0, 1) |
| Drawdown.LargestFallIff | momentum/lab_vol_managed.py:331-333 | For every curve with a positive start, the one-pass figure is attained by some pair, and it is the largest fall over all pairs if and only if every loss below zero made after two different positive values is matched by one made while the starting value was the only positive one |
| Drawdown.EarlyCases | momentum/lab_vol_managed.py:331-333 | The condition holds on every non-negative curve, where the figure lies in [0, 1], and on every curve with a single positive value |
| Drawdown.LateFirstLossUnderstates | carver/backtest.py:365-367 | It fails, and some pair falls further than the figure, on every curve whose first loss below zero comes after two different positive values |
| Drawdown.CatalystDrawdown | catalyst/backtest.py:936-943 | The compounding figure, for every list of returns, is some pair's fall, and the largest over all pairs exactly under the condition of LargestFallIff; with no return of -100% or worse it is, and lies in [0, 1) |
| Drawdown.AdditiveDrawdown | momentum/backtest.py:406-408 | The additive figure of momentum, its overlay and carver, for every list of returns, is some pair's fall, and the largest over all pairs exactly under the same condition; while summed equity is not negative it is, and lies in [-1, 0] |
| Drawdown.CurveSteps | catalyst/backtest.py:936-940 | A return multiplies compounded equity by one plus itself and is added to summed equity |
| Drawdown.NegativeEquityUnderstates | momentum/lab_vol_managed.py:331-333 | A concrete return list with negative summed equity for which some pair falls further than the figure |
| Momentum.RankedIsStableSort | momentum/backtest.py:315-318 | The ranking is a descending permutation of the scores in which ties keep their order |
| Momentum.ComputeScores | momentum/backtest.py:290-310 | The legacy scoring loop returns the scores of its specification |
| Momentum.ComputeOverlayScores | momentum/lab_vol_managed.py:196-210 | The overlay's own scoring loop returns the scores of its own specification |
| Momentum.OverlayScoresAreLegacy | momentum/lab_vol_managed.py:196-210 | The two separately written scorings give the same scores in the same order, for every panel set |
| MomentumBook.ScoreIff | momentum/backtest.py:290-310 | A name scores v exactly when it has a bar at the date with enough before it, is tradeable at the skipped close, and that close is the one a look-back earlier, positive, grown by v |
| MomentumBook.ScoresAre | momentum/backtest.py:290-310 | The scores are those of the names that have one, in key order |
| MomentumBook.TopDecileIs | momentum/backtest.py:315-318 | The decile is not empty when any name is scored, has no more names than the larger of one and the fraction of the scored ones, and all of them or more than that fraction less one; its names are the best, in descending order |
| Momentum.ComputeOneRebalance | momentum/backtest.py:280-355 | The legacy loops return the trades of the ranked top decile |
| MomentumBook.TradesAre | momentum/backtest.py:320-355 | The legacy trades are, one for one and in order, those of the picks that open: bought at the next open and sold at the close of the holding period later or the last bar, both worsened by half the round-trip cost or five basis points |
| Momentum.ComputeOneRebalanceVolManaged | momentum/lab_vol_managed.py:162-275 | The overlay's loops return the scaled trades of the top-decile names with a recent beat |
| MomentumBook.VolTradesAre | momentum/lab_vol_managed.py:221-275 | The overlay's trades are those of the picks with a positive beat in the ninety days before that open, the return scaled by the volatility of the last sixty closes |
| Momentum.VolIsOverlaidLegacy | momentum/lab_vol_managed.py:196-275 | Filtering the decile and then trading and scaling equals trading the decile and then filtering and scaling |
| Momentum.RunVolManagedBacktest | momentum/lab_vol_managed.py:278-308 | The whole overlay backtest is the legacy backtest with each month's trades filtered by recent beat and scaled |
| MomentumBook.RunsByMonth | momentum/lab_vol_managed.py:278-308 | Both runs go month by month: each rebalance contributes what it buys, at its place |
| Momentum.OverlayOnlyFiltersAndScales | momentum/lab_vol_managed.py:246-275 | Without its scale the overlay's list is the legacy list filtered: same order, dates, prices and scores |
| Momentum.VolScale | momentum/lab_vol_managed.py:98-109 | The scale lies in [0.5, 2], is 1 for a degenerate volatility, brings a volatility between 20% and 80% to exactly 40%, and is 2 below and 0.5 above that range |
| NoLookAhead.SelectionSeesOnlyThePast | momentum/backtest.py:290-318 | Two worlds in which every bar and beat dated on or before the rebalance is in one if and only if it is in the other have the same scores, the same ranked top decile, and the same beat flag and scale for every pick |
| NoLookAhead.BlindIffSkipNotNegative | momentum/backtest.py:293-300 | Scoring a panel with a skip of either sign is unaffected by bars after the rebalance if and only if the skip is not negative |
| NoLookAhead.CandidatesSeeOnlyThePast | carver/backtest.py:262-273 | Carver's candidates are the same in any two worlds with the same bars dated on or before the rebalance, for every deterministic detector |
| NoLookAhead.SamePastSameView | carver/backtest.py:264-268 | The same bars up to a date, one by one, and the same key order of the names that have one, make the same trimmed panels |
| Carver.RebalanceDates | carver/backtest.py:227-248 | The loop lists, in strictly increasing order, exactly the first session of every month that has one in the range |
| Carver.OnePerMonth | carver/backtest.py:239-247 | No month is rebalanced twice |
| Carver.ComputeOneRebalance | carver/backtest.py:251-319 | The loop returns the long-only trades of the detector's candidates, held to the first bar on or after the next rebalance |
| Carver.TradeIff | carver/backtest.py:280-318 | A candidate is traded exactly long, from the open of the bar after the rebalance to the close of the first bar on or after the next, or the last, when that is later, both prices worsened by the slippage |
| Carver.TradesAre | carver/backtest.py:278-319 | The trades of a rebalance are those of the candidates that can be held, one for one and in order |
| Carver.ShownIs | carver/backtest.py:264-270 | The detector is shown every name with a bar up to the rebalance, with exactly those bars |
| Carver.HoldsNeverOverlap | carver/backtest.py:289-300 | For any ticker and rebalances i before j that both trade it, the first trade is closed strictly before the second is opened |
| Carver.RunNeverOverlaps | carver/backtest.py:322-334 | Over the whole trade list no ticker is ever held twice at once, when the detector names each ticker once |
| Overrides.MomentumBacktest.RunMomentumWithContext | momentum/backtest.py:596-697 | What a run reports depends on its window and overrides alone, whatever earlier runs, raising ones included, left in the globals |
| Overrides.MomentumReportIs | momentum/backtest.py:596-697 | With knobs the overrides ask for (231, 21, 21 and 0.10 where they name none) the volatility-managed arm runs exactly when the mode text asks for it; when one does not convert the run raises |
| Overrides.DefaultsAreTrueIff | momentum/backtest.py:133-147 | After any history of runs, the reported defaults are the live ones exactly when no global was left at another value by the last run to reach it |
| Overrides.DefaultsEchoTheLastRun | momentum/backtest.py:612-619 | Right after a run whose overrides convert, the reported defaults are that run's own knobs |
| Overrides.CatalystBacktest.RunCatalystWithContext | catalyst/backtest.py:1075-1128 | What a run reports depends on its context and overrides alone |
| Overrides.CatalystReportIs | catalyst/backtest.py:1075-1128 | The run builds with the window, mode and holding period the overrides ask for (30, off and 30 where they name none), or raises |
| Overrides.CatalystLeaksIff | catalyst/backtest.py:1078-1105 | Over any history, a global is left set exactly when a run names the window or the mode, its hold_days does not convert, and every run since has raised on its first conversion |

## Left out

- RepairProtocol.Apply: acquire, reclaim and release are single steps; their finer interleavings are in LockRace only, a reused pid is not modelled, and the retention of the log is not a step (see RepairTheorems.RetentionKeepsPoll).
- DataRepairService.RepairDaemon.Tick: other processes do not move between the statements of a method; their steps are interleaved in the machine, whose invariants hold between any two steps.
- RepairLog.Pending: a poll returns requests with equal timestamps in insertion order, where the query leaves their order open.
- Cutover.FreshIff: with two rows of one pair at one timestamp either may be read, so only one direction is stated there.
- Cutover.SecondPassIsQuiet: asks for non-empty provider names, since an empty overlay entry reads as none.
- DefectRegister.ConsolidatedDefects: `now` is one reading for review rows without a log time, refs are compared by their rank in string order, and an event always carries a ref.
- Momentum.RunBacktest: negative look-back, skip and hold overrides are outside the loops (for skip see NoLookAhead.BlindIffSkipNotNegative); the month-end session list, the tradeable-stock test and the realized volatility of a close window are parameters; NaN prices are not modelled.
- NoLookAhead.SelectionSeesOnlyThePast: the names visible at the date are taken to come in the same key order, since ties in score keep it.
- Carver.RunNeverOverlaps: needs a detector that names each ticker once per rebalance; the detector itself is a parameter.
- CatalystModes.BuildTrades: a window of zero over a range that is walked is excluded, since the call would not return; the cluster detector, the data-frame sort and the session classifier are parameters.
- OperatorRuns.Apply: the database clock read by the conflict check also stamps the inserted row.
- OperatorRuns.StatusIff: asks for distinct times of a run's rows, since the query leaves open which of two at one timestamp is the latest; StatusView takes the later inserted.
- OperatorRuns.Console.RequestOperatorRun: the clean-up of the ticker list and the merge of parameter blocks, which only shape the payload.
- The healer, the validation stage and the ladders that feed the register are parameters or inputs.
- JSON parsing of payloads beyond "has an id" and "sources is a list"; the message texts and severities of log rows.
- Sharpe ratio, profit factor, win rate and credibility scores: floating-point statistics.
- The latest-verdict and latest-run queries pick one of equal timestamps; only properties that do not depend on the choice are stated.
- The lane daemon of operator runs beyond the rows it can write, the advisory database lock, and the engine schedulers.
- User interface, HTTP endpoints, data loaders and report files.
